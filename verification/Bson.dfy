/** BSON documents as ordered field lists, with arrays as documents carrying a flag, and the three
    path operations every translator module is built on. */
module Bson {
  import opened Optional

  /** A double; comparisons with NotANumber are all false. */
  datatype Double = NegInfinity | Finite(r: real) | PosInfinity | NotANumber

  datatype Value =
    | MinKey
    | Null
    | Int32(n: int)
    | Int64(n: int)
    | Dbl(d: Double)
    | Utf8(text: string)
    | Document(fields: seq<Field>)
    | Array(fields: seq<Field>)
    | Binary(data: string)
    | ObjectId(data: string)
    | Bool(b: bool)
    | DateTime(millis: int)
    | Timestamp(t: nat, i: nat)
    | Regex(pattern: string)
    | MaxKey

  datatype Field = Field(key: string, value: Value)

  type Path = seq<string>

  predicate HasFields(v: Value) {
    v.Document? || v.Array?
  }

  // ---------------------------------------------------------------- reading

  function Find(fields: seq<Field>, key: string): Option<Value> {
    if fields == [] then None
    else if fields[0].key == key then Some(fields[0].value)
    else Find(fields[1..], key)
  }

  /** path_get: the first field of each name; a scalar in the middle ends the search. */
  function Get(fields: seq<Field>, path: Path): Option<Value>
    decreases |path|, 0
  {
    if path == [] then None
    else
      match Find(fields, path[0])
      case None => None
      case Some(v) => if |path| == 1 then Some(v) else GetIn(v, path[1..])
  }

  /** A path read inside a value; a scalar has nothing inside. */
  function GetIn(v: Value, path: Path): Option<Value>
    decreases |path|, 1
  {
    if HasFields(v) then Get(v.fields, path) else None
  }

  // ---------------------------------------------------------------- writing

  function FieldsIn(v: Value): seq<Field> {
    if HasFields(v) then v.fields else []
  }

  /** The new value of a field the path goes through: a container keeps its kind, anything else
      becomes a document. */
  function SetField(old_: Value, path: Path, v: Value): Value
    decreases |path|, 2
  {
    if path == [] then v
    else if old_.Array? then Array(Set(old_.fields, path, v))
    else Document(Set(FieldsIn(old_), path, v))
  }

  /** Every field of the first name is rewritten, the others stay where they are. */
  function SetMatching(fields: seq<Field>, path: Path, v: Value): (r: seq<Field>)
    requires path != []
    ensures |r| == |fields|
    decreases |path|, 0, |fields|
  {
    if fields == [] then []
    else
      var f := fields[0];
      [if f.key == path[0] then Field(f.key, SetField(f.value, path[1..], v)) else f]
      + SetMatching(fields[1..], path, v)
  }

  function Set(fields: seq<Field>, path: Path, v: Value): seq<Field>
    decreases |path|, 1
  {
    if path == [] then fields
    else
      SetMatching(fields, path, v) +
      if Find(fields, path[0]).Some? then [] else [Field(path[0], SetField(Document([]), path[1..], v))]
  }

  function Unset(fields: seq<Field>, path: Path): seq<Field>
    decreases |path|, |fields|
  {
    if path == [] || fields == [] then fields
    else
      var f := fields[0];
      (if f.key != path[0] then [f]
       else if |path| == 1 then []
       else if f.value.Document? then [Field(f.key, Document(Unset(f.value.fields, path[1..])))]
       else if f.value.Array? then [Field(f.key, Array(Unset(f.value.fields, path[1..])))]
       else [f])
      + Unset(fields[1..], path)
  }

  // ---------------------------------------------------------------- path laws

  predicate Overlap(p: Path, q: Path) {
    p <= q || q <= p
  }

  lemma {:induction false} FindInSet(fields: seq<Field>, path: Path, v: Value, key: string)
    requires path != []
    ensures Find(SetMatching(fields, path, v), key) ==
            match Find(fields, key)
            case None => None
            case Some(old_) => Some(if key == path[0] then SetField(old_, path[1..], v) else old_)
  {
    if fields != [] {
      var r := SetMatching(fields, path, v);
      assert r[1..] == SetMatching(fields[1..], path, v);
      FindInSet(fields[1..], path, v, key);
    }
  }

  lemma {:induction false} FindAppend(a: seq<Field>, b: seq<Field>, key: string)
    ensures Find(a + b, key) == if Find(a, key).Some? then Find(a, key) else Find(b, key)
  {
    if a == [] {
      assert a + b == b;
    } else {
      assert (a + b)[1..] == a[1..] + b;
      FindAppend(a[1..], b, key);
    }
  }

  lemma FindSet(fields: seq<Field>, path: Path, v: Value, key: string)
    requires path != []
    ensures Find(Set(fields, path, v), key) ==
            if key != path[0] then Find(fields, key)
            else Some(SetField(if Find(fields, key).Some? then Find(fields, key).value else Document([]), path[1..], v))
  {
    FindInSet(fields, path, v, key);
    FindAppend(SetMatching(fields, path, v),
               if Find(fields, path[0]).Some? then [] else [Field(path[0], SetField(Document([]), path[1..], v))], key);
  }

  /** Reading at or below a path just written reads the value written. */
  lemma {:induction false} GetSet(fields: seq<Field>, path: Path, v: Value, below: Path)
    requires path != []
    ensures Get(Set(fields, path, v), path + below) == if below == [] then Some(v) else GetIn(v, below)
    decreases |path|
  {
    FindSet(fields, path, v, path[0]);
    assert (path + below)[0] == path[0] && (path + below)[1..] == path[1..] + below;
    if |path| == 1 {
      assert path[1..] + below == below;
    } else {
      var old_ := if Find(fields, path[0]).Some? then Find(fields, path[0]).value else Document([]);
      GetSet(FieldsIn(old_), path[1..], v, below);
    }
  }

  /** A path that is neither above nor below the one written reads as before. */
  lemma {:induction false} GetSetElsewhere(fields: seq<Field>, path: Path, v: Value, other: Path)
    requires !Overlap(path, other)
    ensures Get(Set(fields, path, v), other) == Get(fields, other)
    decreases |path|
  {
    assert path != [] && other != [];
    FindSet(fields, path, v, other[0]);
    if path[0] == other[0] {
      Diverge(path, other);
      var old_ := if Find(fields, path[0]).Some? then Find(fields, path[0]).value else Document([]);
      GetSetElsewhere(FieldsIn(old_), path[1..], v, other[1..]);
      NothingInside(other[1..]);
    }
  }

  lemma NothingInside(path: Path)
    ensures Get([], path) == None
  {
  }

  lemma Diverge(p: Path, q: Path)
    requires p != [] && q != [] && p[0] == q[0] && !Overlap(p, q)
    ensures !Overlap(p[1..], q[1..])
    ensures |p| > 1 && |q| > 1
  {
    assert p == [p[0]] + p[1..] && q == [q[0]] + q[1..];
    assert p[1..] <= q[1..] ==> p <= q;
    assert q[1..] <= p[1..] ==> q <= p;
  }

  /** Reading above a path just written still finds a container, changed only there. */
  lemma {:induction false} GetSetAbove(fields: seq<Field>, path: Path, v: Value, above: Path)
    requires above != [] && above <= path && |above| < |path|
    ensures var old_ := Get(fields, above);
            Get(Set(fields, path, v), above) ==
              Some(SetField(if old_.Some? then old_.value else Document([]), path[|above|..], v))
    decreases |path|
  {
    FindSet(fields, path, v, path[0]);
    assert above[0] == path[0];
    var rest, up := path[1..], above[1..];
    if |above| > 1 {
      var old_ := if Find(fields, path[0]).Some? then Find(fields, path[0]).value else Document([]);
      assert up <= rest && rest[|up|..] == path[|above|..];
      GetSetAbove(FieldsIn(old_), rest, v, up);
      NothingInside(up);
      assert Get(fields, above) == Get(FieldsIn(old_), up);
      hide Set, Find;
    } else {
      assert rest == path[|above|..];
    }
  }

  /** The last of two writes to one path is the only one that shows. */
  lemma {:induction false} SetSet(fields: seq<Field>, path: Path, v: Value, w: Value)
    requires path != []
    ensures Set(Set(fields, path, v), path, w) == Set(fields, path, w)
    decreases |path|, |fields|, 2
  {
    var once := Set(fields, path, v);
    SetParts(fields, path, v);
    SetParts(fields, path, w);
    SetParts(once, path, w);
    FindSet(fields, path, v, path[0]);
    SetMatchingTwice(fields, path, v, w);
    SetFieldTwice([], Document([]), path[1..], v, w);
    RewriteOne(Field(path[0], SetField(Document([]), path[1..], v)), path, w);
    SetMatchingAppend(SetMatching(fields, path, v), [Field(path[0], SetField(Document([]), path[1..], v))], path, w);
    hide Set, SetMatching, SetField, Find;
  }

  lemma SetParts(fields: seq<Field>, path: Path, v: Value)
    requires path != []
    ensures Find(fields, path[0]).Some? ==> Set(fields, path, v) == SetMatching(fields, path, v)
    ensures Find(fields, path[0]).None? ==>
              Set(fields, path, v) ==
              SetMatching(fields, path, v) + [Field(path[0], SetField(Document([]), path[1..], v))]
  {
    hide SetMatching, SetField, Find;
  }

  lemma RewriteOne(f: Field, path: Path, v: Value)
    requires path != [] && f.key == path[0]
    ensures SetMatching([f], path, v) == [Field(f.key, SetField(f.value, path[1..], v))]
  {
    hide SetField;
  }

  lemma {:induction false} SetFieldTwice(fields: seq<Field>, old_: Value, path: Path, v: Value, w: Value)
    requires FieldsIn(old_) == fields
    ensures SetField(SetField(old_, path, v), path, w) == SetField(old_, path, w)
    decreases |path|, |fields|, 3
  {
    if path != [] { SetSet(fields, path, v, w); }
    hide Set;
  }

  lemma {:induction false} SetMatchingTwice(fields: seq<Field>, path: Path, v: Value, w: Value)
    requires path != []
    ensures SetMatching(SetMatching(fields, path, v), path, w) == SetMatching(fields, path, w)
    decreases |path|, |fields|, 0
  {
    if fields != [] {
      var r := SetMatching(fields, path, v);
      assert r[1..] == SetMatching(fields[1..], path, v);
      SetMatchingTwice(fields[1..], path, v, w);
      SetFieldTwice(FieldsIn(fields[0].value), fields[0].value, path[1..], v, w);
      hide SetField, FieldsIn;
    }
  }

  lemma {:induction false} FindUnset(fields: seq<Field>, path: Path, key: string)
    requires path != []
    ensures key != path[0] ==> Find(Unset(fields, path), key) == Find(fields, key)
    ensures key == path[0] && |path| == 1 ==> Find(Unset(fields, path), key) == None
    ensures key == path[0] && |path| > 1 ==>
              Find(Unset(fields, path), key) ==
              match Find(fields, key)
              case None => None
              case Some(old_) => Some(if old_.Document? then Document(Unset(old_.fields, path[1..]))
                                      else if old_.Array? then Array(Unset(old_.fields, path[1..]))
                                      else old_)
  {
    if fields != [] {
      FindUnset(fields[1..], path, key);
      var f, rest := fields[0], Unset(fields[1..], path);
      var kept := if f.key != path[0] then [f]
                  else if |path| == 1 then []
                  else if f.value.Document? then [Field(f.key, Document(Unset(f.value.fields, path[1..])))]
                  else if f.value.Array? then [Field(f.key, Array(Unset(f.value.fields, path[1..])))]
                  else [f];
      assert Unset(fields, path) == kept + rest;
      FindAppend(kept, rest, key);
      assert kept != [] ==> Find(kept, key) == if kept[0].key == key then Some(kept[0].value) else None;
    }
  }

  /** Reading a path just removed finds nothing, however often its names are repeated. */
  lemma {:induction false} GetUnset(fields: seq<Field>, path: Path)
    requires path != []
    ensures Get(Unset(fields, path), path) == None
    decreases |path|
  {
    FindUnset(fields, path, path[0]);
    if |path| > 1 && Find(fields, path[0]).Some? && HasFields(Find(fields, path[0]).value) {
      GetUnset(Find(fields, path[0]).value.fields, path[1..]);
    }
  }

  lemma {:induction false} GetUnsetElsewhere(fields: seq<Field>, path: Path, other: Path)
    requires !Overlap(path, other)
    ensures Get(Unset(fields, path), other) == Get(fields, other)
    decreases |path|
  {
    assert path != [] && other != [];
    FindUnset(fields, path, other[0]);
    if path[0] == other[0] {
      Diverge(path, other);
      if Find(fields, path[0]).Some? && HasFields(Find(fields, path[0]).value) {
        GetUnsetElsewhere(Find(fields, path[0]).value.fields, path[1..], other[1..]);
      }
    }
  }

  // ---------------------------------------------------------------- when writing changes nothing

  /** The path exists, and every field of its names, repeated ones included, holds the value. */
  predicate Everywhere(fields: seq<Field>, path: Path, v: Value)
    decreases |path|, |fields|
  {
    path != [] && Find(fields, path[0]).Some? && EveryMatch(fields, path, v)
  }

  predicate EveryMatch(fields: seq<Field>, path: Path, v: Value)
    requires path != []
    decreases |path|, 0, |fields|
  {
    fields == [] ||
    ((fields[0].key == path[0] ==>
        if |path| == 1 then fields[0].value == v
        else HasFields(fields[0].value) && Everywhere(fields[0].value.fields, path[1..], v))
     && EveryMatch(fields[1..], path, v))
  }

  lemma {:induction false} SetMakesEverywhere(fields: seq<Field>, path: Path, v: Value)
    requires path != []
    ensures Everywhere(Set(fields, path, v), path, v)
    decreases |path|, |fields|, 1
  {
    FindSet(fields, path, v, path[0]);
    SetMatchingMakes(fields, path, v);
    var tail := if Find(fields, path[0]).Some? then [] else [Field(path[0], SetField(Document([]), path[1..], v))];
    if tail != [] {
      if |path| > 1 { SetMakesEverywhere([], path[1..], v); }
      assert EveryMatch(tail, path, v);
    }
    EveryMatchAppend(SetMatching(fields, path, v), tail, path, v);
  }

  lemma {:induction false} SetMatchingMakes(fields: seq<Field>, path: Path, v: Value)
    requires path != []
    ensures EveryMatch(SetMatching(fields, path, v), path, v)
    decreases |path|, |fields|, 0
  {
    if fields != [] {
      var r := SetMatching(fields, path, v);
      assert r[1..] == SetMatching(fields[1..], path, v);
      SetMatchingMakes(fields[1..], path, v);
      if |path| > 1 && fields[0].key == path[0] {
        SetMakesEverywhere(FieldsIn(fields[0].value), path[1..], v);
      }
    }
  }

  lemma {:induction false} EveryMatchAppend(a: seq<Field>, b: seq<Field>, path: Path, v: Value)
    requires path != []
    ensures EveryMatch(a + b, path, v) <==> EveryMatch(a, path, v) && EveryMatch(b, path, v)
  {
    if a == [] {
      assert a + b == b;
    } else {
      assert (a + b)[1..] == a[1..] + b;
      EveryMatchAppend(a[1..], b, path, v);
    }
  }

  /** A write changes nothing exactly when the value is already everywhere on its path. */
  lemma {:induction false} SetFixed(fields: seq<Field>, path: Path, v: Value)
    requires path != []
    ensures Set(fields, path, v) == fields <==> Everywhere(fields, path, v)
    decreases |path|, |fields|, 1
  {
    SetMatchingFixed(fields, path, v);
    if Find(fields, path[0]).None? {
      assert |Set(fields, path, v)| == |fields| + 1;
    } else {
      assert Set(fields, path, v) == SetMatching(fields, path, v);
    }
  }

  lemma {:induction false} SetMatchingFixed(fields: seq<Field>, path: Path, v: Value)
    requires path != []
    ensures SetMatching(fields, path, v) == fields <==> EveryMatch(fields, path, v)
    decreases |path|, |fields|, 0
  {
    if fields != [] {
      var r := SetMatching(fields, path, v);
      assert r[1..] == SetMatching(fields[1..], path, v);
      assert r == [r[0]] + r[1..] && fields == [fields[0]] + fields[1..];
      SetMatchingFixed(fields[1..], path, v);
      if |path| > 1 && fields[0].key == path[0] && HasFields(fields[0].value) {
        SetFixed(fields[0].value.fields, path[1..], v);
      }
    }
  }

  /** Writing elsewhere leaves a settled path settled. */
  lemma {:induction false} EverywhereSurvives(fields: seq<Field>, path: Path, v: Value, other: Path, w: Value)
    requires !Overlap(path, other) && Everywhere(fields, path, v)
    ensures Everywhere(Set(fields, other, w), path, v)
    decreases |path|, |fields|, 1
  {
    assert path != [] && other != [];
    FindSet(fields, other, w, path[0]);
    MatchSurvives(fields, path, v, other, w);
    var tail := if Find(fields, other[0]).Some? then [] else [Field(other[0], SetField(Document([]), other[1..], w))];
    EveryMatchAppend(SetMatching(fields, other, w), tail, path, v);
  }

  lemma InsideSet(fields: seq<Field>, path: Path, w: Value)
    requires |path| > 1 && fields != [] && fields[0].key == path[0] && HasFields(fields[0].value)
    ensures var y := SetMatching(fields, path, w)[0].value;
            HasFields(y) && y.fields == Set(fields[0].value.fields, path[1..], w)
  {
    hide Set;
  }

  lemma FirstMatching(fields: seq<Field>, path: Path, w: Value)
    requires path != [] && fields != []
    ensures var r := SetMatching(fields, path, w);
            && r[0].key == fields[0].key && (fields[0].key != path[0] ==> r[0] == fields[0])
            && r[1..] == SetMatching(fields[1..], path, w)
  {
    hide SetField;
  }

  /** One field before and after a write elsewhere. */
  lemma FieldSurvives(fields: seq<Field>, r: seq<Field>, path: Path, v: Value)
    requires path != [] && fields != [] && r != [] && r[0].key == fields[0].key && EveryMatch(r[1..], path, v)
    requires fields[0].key == path[0] ==>
               if |path| == 1 then r[0].value == v
               else HasFields(r[0].value) && Everywhere(r[0].value.fields, path[1..], v)
    ensures EveryMatch(r, path, v)
  {
    hide Everywhere;
  }

  lemma {:induction false} MatchSurvives(fields: seq<Field>, path: Path, v: Value, other: Path, w: Value)
    requires path != [] && other != [] && !Overlap(path, other) && EveryMatch(fields, path, v)
    ensures EveryMatch(SetMatching(fields, other, w), path, v)
    decreases |path|, |fields|, 0
  {
    hide Set, Find, SetField, SetMatching, Everywhere, Overlap;
    if fields != [] {
      var r := SetMatching(fields, other, w);
      FirstMatching(fields, other, w);
      assert fields[0].key == path[0] ==>
               if |path| == 1 then fields[0].value == v
               else HasFields(fields[0].value) && Everywhere(fields[0].value.fields, path[1..], v);
      hide EveryMatch;
      MatchSurvives(fields[1..], path, v, other, w);
      if fields[0].key == path[0] == other[0] {
        Diverge(path, other);
        EverywhereSurvives(fields[0].value.fields, path[1..], v, other[1..], w);
        InsideSet(fields, other, w);
      }
      FieldSurvives(fields, r, path, v);
    }
  }

  // ---------------------------------------------------------------- the loops that do it

  method PathGet(doc: seq<Field>, path: Path) returns (r: Option<Value>)
    ensures r == Get(doc, path)
  {
    var current := doc;
    for i := 0 to |path|
      invariant Get(doc, path) == Get(current, path[i..])
    {
      var it := Find(current, path[i]);
      assert path[i..][1..] == path[i + 1..];
      if it.None? || i + 1 == |path| { return it; }
      if !HasFields(it.value) { return None; }
      current := it.value.fields;
    }
    return None;
  }

  lemma {:induction false} SetMatchingAppend(a: seq<Field>, b: seq<Field>, path: Path, v: Value)
    requires path != []
    ensures SetMatching(a + b, path, v) == SetMatching(a, path, v) + SetMatching(b, path, v)
  {
    if a == [] {
      assert a + b == b;
    } else {
      assert (a + b)[1..] == a[1..] + b;
      SetMatchingAppend(a[1..], b, path, v);
    }
  }

  lemma {:induction false} UnsetAppend(a: seq<Field>, b: seq<Field>, path: Path)
    requires path != []
    ensures Unset(a + b, path) == Unset(a, path) + Unset(b, path)
    decreases |a|
  {
    if a == [] {
      assert a + b == b;
    } else {
      assert (a + b)[1..] == a[1..] + b;
      UnsetAppend(a[1..], b, path);
    }
  }

  lemma NothingSet(path: Path, v: Value)
    requires path != []
    ensures SetMatching([], path, v) == [] && Find([], path[0]) == None
  {
  }

  lemma OneSet(fields: seq<Field>, f: Field, path: Path, v: Value)
    requires path != []
    ensures SetMatching(fields + [f], path, v) ==
            SetMatching(fields, path, v) + [if f.key == path[0] then Field(f.key, SetField(f.value, path[1..], v)) else f]
    ensures Find(fields + [f], path[0]).Some? <==> Find(fields, path[0]).Some? || f.key == path[0]
  {
    hide SetField;
    SetMatchingAppend(fields, [f], path, v);
    FindAppend(fields, [f], path[0]);
    assert SetMatching([f], path, v) == [if f.key == path[0] then Field(f.key, SetField(f.value, path[1..], v)) else f];
  }

  /** set_in: copy the fields one by one, rewriting those on the path, then append if none was. */
  method SetIn(src: seq<Field>, path: Path, depth: nat, value: Value) returns (out: seq<Field>)
    requires depth < |path|
    ensures out == Set(src, path[depth..], value)
    decreases |path| - depth, 1
  {
    hide SetField, SetMatching, Find;
    var p := path[depth..];
    assert p[1..] == path[depth + 1..];
    var handled := false;
    out := [];
    NothingSet(p, value);
    for k := 0 to |src|
      invariant out == SetMatching(src[..k], p, value)
      invariant handled == Find(src[..k], p[0]).Some?
    {
      var it := src[k];
      assert src[..k + 1] == src[..k] + [it];
      OneSet(src[..k], it, p, value);
      if it.key != path[depth] {
        out := out + [it];
      } else {
        handled := true;
        var new_ := SetBelow(it.value, path, depth, value);
        out := out + [Field(it.key, new_)];
      }
    }
    assert src[..|src|] == src;
    if !handled {
      var new_ := SetBelow(Document([]), path, depth, value);
      out := out + [Field(path[depth], new_)];
    }
  }

  /** The new value of a field on the path: the value itself, or a container rewritten inside. */
  method SetBelow(old_: Value, path: Path, depth: nat, value: Value) returns (new_: Value)
    requires depth < |path|
    ensures new_ == SetField(old_, path[depth + 1..], value)
    decreases |path| - depth, 0
  {
    if depth + 1 == |path| { return value; }
    var child := if HasFields(old_) then old_.fields else [];
    var sub := SetIn(child, path, depth + 1, value);
    return if old_.Array? then Array(sub) else Document(sub);
  }

  /** unset_in: copy the fields one by one, dropping those at the end of the path. */
  method UnsetIn(src: seq<Field>, path: Path, depth: nat) returns (out: seq<Field>)
    requires depth < |path|
    ensures out == Unset(src, path[depth..])
    decreases |path| - depth
  {
    var p := path[depth..];
    assert p[1..] == path[depth + 1..];
    out := [];
    for k := 0 to |src|
      invariant out == Unset(src[..k], p)
    {
      var it := src[k];
      assert src[..k + 1] == src[..k] + [it];
      UnsetAppend(src[..k], [it], p);
      if it.key != path[depth] {
        out := out + [it];
      } else if depth + 1 == |path| {
      } else if !HasFields(it.value) {
        out := out + [it];
      } else {
        var sub := UnsetIn(it.value.fields, path, depth + 1);
        out := out + [Field(it.key, if it.value.Array? then Array(sub) else Document(sub))];
      }
    }
    assert src[..|src|] == src;
  }

  // ---------------------------------------------------------------- arrays

  /** array_values: the elements of an array, whatever their keys. */
  function Values(fields: seq<Field>): seq<Value> {
    seq(|fields|, i requires 0 <= i < |fields| => fields[i].value)
  }

  function Decimal(n: nat): string {
    if n < 10 then ["0123456789"[n]] else Decimal(n / 10) + ["0123456789"[n % 10]]
  }

  /** make_array: elements keyed "0", "1", … */
  function Elements(values: seq<Value>): seq<Field> {
    seq(|values|, i requires 0 <= i < |values| => Field(Decimal(i), values[i]))
  }

  function KeyValue(key: string): nat {
    if key == [] then 0
    else
      var last := key[|key| - 1];
      KeyValue(key[..|key| - 1]) * 10 + (if last < '0' then 0 else last as nat - '0' as nat)
  }

  predicate IsDigits(s: string) {
    forall i :: 0 <= i < |s| ==> '0' <= s[i] <= '9'
  }

  lemma DigitIs(d: nat)
    requires d < 10
    ensures "0123456789"[d] as nat == '0' as nat + d
  {
  }

  /** Array elements are keyed by their indices in decimal digits, without a leading zero. */
  lemma {:induction false} DecimalReads(n: nat)
    ensures KeyValue(Decimal(n)) == n && Decimal(n) != [] && IsDigits(Decimal(n))
    ensures n > 0 ==> Decimal(n)[0] != '0'
  {
    DigitIs(n % 10);
    if n >= 10 {
      DecimalReads(n / 10);
      KeyValueMore(Decimal(n / 10), "0123456789"[n % 10]);
    } else {
      KeyValueMore([], "0123456789"[n % 10]);
      assert [] + ["0123456789"[n % 10]] == Decimal(n);
    }
    hide KeyValue;
  }

  lemma KeyValueMore(front: string, c: char)
    requires '0' <= c
    ensures KeyValue(front + [c]) == KeyValue(front) * 10 + (c as nat - '0' as nat)
    ensures KeyValue([]) == 0
  {
    assert (front + [c])[..|front|] == front;
  }

  // ---------------------------------------------------------------- where fields stand

  /** A name is read from the first field that bears it. */
  lemma {:induction false} FindIsFirst(fields: seq<Field>, key: string, v: Value)
    ensures Find(fields, key) == Some(v) <==>
      exists k :: 0 <= k < |fields| && fields[k] == Field(key, v) && forall j :: 0 <= j < k ==> fields[j].key != key
  {
    if fields != [] {
      var rest := fields[1..];
      FindIsFirst(rest, key, v);
      if fields[0].key != key && Find(rest, key) == Some(v) {
        var k :| 0 <= k < |rest| && rest[k] == Field(key, v) && forall j :: 0 <= j < k ==> rest[j].key != key;
        assert fields[k + 1] == rest[k];
        assert forall j :: 0 < j < k + 1 ==> fields[j] == rest[j - 1];
      }
      if k :| 0 <= k < |fields| && fields[k] == Field(key, v) && forall j :: 0 <= j < k ==> fields[j].key != key {
        if k > 0 {
          assert fields[0].key != key && rest[k - 1] == fields[k];
          assert forall j :: 0 <= j < k - 1 ==> rest[j] == fields[j + 1];
        }
      }
    }
  }

  lemma {:induction false} SetMatchingPlaces(fields: seq<Field>, path: Path, v: Value, i: nat)
    requires path != [] && i < |fields|
    ensures SetMatching(fields, path, v)[i] ==
            if fields[i].key == path[0] then Field(path[0], SetField(fields[i].value, path[1..], v)) else fields[i]
    decreases |fields|
  {
    hide SetField;
    if i > 0 { SetMatchingPlaces(fields[1..], path, v, i - 1); }
  }

  /** A write leaves every field where it stands, changes only those of the path's first name, and
      appends a field of that name if there was none. */
  lemma SetPlaces(fields: seq<Field>, path: Path, v: Value)
    requires path != []
    ensures var out := Set(fields, path, v);
            && |out| == |fields| + (if Find(fields, path[0]).Some? then 0 else 1)
            && (forall i :: 0 <= i < |fields| ==> out[i].key == fields[i].key)
            && (forall i :: 0 <= i < |fields| && fields[i].key != path[0] ==> out[i] == fields[i])
            && (Find(fields, path[0]) == None ==> out[|fields|].key == path[0])
  {
    hide SetField;
    forall i | 0 <= i < |fields|
      ensures SetMatching(fields, path, v)[i] ==
              if fields[i].key == path[0] then Field(path[0], SetField(fields[i].value, path[1..], v)) else fields[i]
    {
      SetMatchingPlaces(fields, path, v, i);
    }
    hide SetMatching;
  }

  /** The fields not of a name, in their order. */
  function Apart(fields: seq<Field>, key: string): seq<Field> {
    if fields == [] then []
    else Apart(fields[..|fields| - 1], key) + if fields[|fields| - 1].key == key then [] else [fields[|fields| - 1]]
  }

  /** Removing a name takes away all its fields, and removing a path inside leaves the others as they
      stand and every name where it was. */
  lemma {:induction false} UnsetPlaces(fields: seq<Field>, path: Path)
    requires path != []
    ensures |path| == 1 ==> Unset(fields, path) == Apart(fields, path[0])
    ensures |path| > 1 ==>
      |Unset(fields, path)| == |fields| && forall i :: 0 <= i < |fields| ==>
        Unset(fields, path)[i].key == fields[i].key
        && (fields[i].key != path[0] || !HasFields(fields[i].value) ==> Unset(fields, path)[i] == fields[i])
    decreases |fields|
  {
    if fields != [] {
      var front, last := fields[..|fields| - 1], fields[|fields| - 1];
      assert fields == front + [last];
      UnsetAppend(front, [last], path);
      UnsetPlaces(front, path);
      UnsetOne(last, path);
      hide Unset;
    }
  }

  lemma UnsetOne(f: Field, path: Path)
    requires path != []
    ensures |path| == 1 ==> Unset([f], path) == if f.key == path[0] then [] else [f]
    ensures |path| > 1 ==> |Unset([f], path)| == 1 && Unset([f], path)[0].key == f.key
                           && (f.key != path[0] || !HasFields(f.value) ==> Unset([f], path) == [f])
  {
    assert [f][1..] == [] && Unset([], path) == [];
  }

  // ---------------------------------------------------------------- dotted names

  /** The pieces between dots. */
  function Split(dotted: string): (r: seq<string>)
    ensures r != []
  {
    if dotted == [] then [[]]
    else
      var rest := Split(dotted[1..]);
      if dotted[0] == '.' then [[]] + rest else [[dotted[0]] + rest[0]] + rest[1..]
  }

  function Joined(path: seq<string>): string {
    if path == [] then [] else if |path| == 1 then path[0] else path[0] + "." + Joined(path[1..])
  }

  /** split_path: an empty member is refused. */
  function SplitPath(dotted: string): Option<Path> {
    var parts := Split(dotted);
    if [] in parts then None else Some(parts)
  }

  lemma {:induction false} SplitPiece(piece: string, rest: string)
    requires '.' !in piece
    ensures Split(piece) == [piece]
    ensures Split(piece + "." + rest) == [piece] + Split(rest)
  {
    if piece == [] {
      assert piece + "." + rest == "." + rest && ("." + rest)[1..] == rest;
    } else {
      assert (piece + "." + rest)[1..] == piece[1..] + "." + rest;
      SplitPiece(piece[1..], rest);
      assert piece == [piece[0]] + piece[1..];
    }
  }

  /** A dotted name splits into exactly the members it was joined from. */
  lemma {:induction false} SplitJoined(path: Path)
    requires path != []
    requires forall k :: 0 <= k < |path| ==> '.' !in path[k] && path[k] != []
    ensures SplitPath(Joined(path)) == Some(path)
  {
    if |path| == 1 {
      SplitPiece(path[0], []);
      assert Split(Joined(path)) == path;
    } else {
      SplitJoined(path[1..]);
      SplitPiece(path[0], Joined(path[1..]));
      assert Split(Joined(path)) == path;
    }
  }

  lemma JoinedStart(first: string, rest: Path)
    ensures Joined([first] + rest) == if rest == [] then first else first + "." + Joined(rest)
  {
    assert ([first] + rest)[1..] == rest;
  }

  lemma JoinedFirst(c: char, rest: Path)
    requires rest != []
    ensures Joined([[]] + rest) == "." + Joined(rest)
    ensures Joined([[c] + rest[0]] + rest[1..]) == [c] + Joined(rest)
  {
    JoinedStart([], rest);
    JoinedStart([c] + rest[0], rest[1..]);
    JoinedStart(rest[0], rest[1..]);
    hide Joined;
    assert rest == [rest[0]] + rest[1..];
    Regroup([c], rest[0], ".", Joined(rest[1..]));
    assert [] + "." + Joined(rest) == "." + Joined(rest);
  }

  lemma Regroup(c: string, first: string, dot: string, rest: string)
    ensures (c + first) + dot + rest == c + (first + dot + rest)
  {
  }

  lemma {:induction false} SplitParts(dotted: string)
    ensures Joined(Split(dotted)) == dotted
    ensures forall k :: 0 <= k < |Split(dotted)| ==> '.' !in Split(dotted)[k]
  {
    if dotted != [] {
      var rest := Split(dotted[1..]);
      SplitParts(dotted[1..]);
      JoinedFirst(dotted[0], rest);
      hide Joined;
      assert dotted == [dotted[0]] + dotted[1..];
    }
  }

  /** A dotted name is a path exactly when it joins that path's members, none of them empty or dotted. */
  lemma SplitExactly(dotted: string, path: Path)
    ensures SplitPath(dotted) == Some(path) <==>
      path != [] && Joined(path) == dotted && forall k :: 0 <= k < |path| ==> '.' !in path[k] && path[k] != []
  {
    SplitParts(dotted);
    if path != [] && Joined(path) == dotted && forall k :: 0 <= k < |path| ==> '.' !in path[k] && path[k] != [] {
      SplitJoined(path);
    }
  }

  // ---------------------------------------------------------------- numbers and equality

  const TWO_53: nat := 0x20_0000_0000_0000

  function NearestMultiple(n: nat, unit: nat): nat
    requires 0 < unit
  {
    var q, r := n / unit, n % unit;
    if 2 * r < unit || (2 * r == unit && q % 2 == 0) then q else q + 1
  }

  function RoundAt(n: nat, unit: nat): nat
    requires 0 < unit
    decreases n - unit
  {
    if n < TWO_53 * unit then NearestMultiple(n, unit) * unit else RoundAt(n, 2 * unit)
  }

  /** static_cast<double>(int64): exact up to 53 bits, round-half-to-even beyond. */
  function RoundToDouble(n: int): int {
    if n < 0 then 0 - RoundAt(-n, 1) else RoundAt(n, 1)
  }

  predicate IsNumeric(v: Value) {
    v.Int32? || v.Int64? || v.Dbl?
  }

  function AsDouble(v: Value): Double
    requires IsNumeric(v)
  {
    match v
    case Int32(n) => Finite(n as real)
    case Int64(n) => Finite(RoundToDouble(n) as real)
    case Dbl(d) => d
  }

  /** Addition of doubles; a sum of two finite ones is kept exact. */
  function Plus(a: Double, b: Double): Double {
    match (a, b)
    case (Finite(x), Finite(y)) => Finite(x + y)
    case (Finite(_), _) => b
    case (_, Finite(_)) => a
    case _ => if a == b then a else NotANumber
  }

  predicate DoubleEqual(a: Double, b: Double) {
    a == b && !a.NotANumber?
  }

  predicate DoubleLess(a: Double, b: Double) {
    match (a, b)
    case (NotANumber, _) => false
    case (_, NotANumber) => false
    case (NegInfinity, _) => !b.NegInfinity?
    case (_, PosInfinity) => !a.PosInfinity?
    case (Finite(x), Finite(y)) => x < y
    case _ => false
  }

  /** value_equal: numbers by value across types, containers byte for byte, and never for the
      types its switch does not list. */
  predicate ValueEqual(a: Value, b: Value) {
    if IsNumeric(a) && IsNumeric(b) then DoubleEqual(AsDouble(a), AsDouble(b))
    else a == b && !a.Regex?
  }

  // ---------------------------------------------------------------- rounding to a double

  lemma TimesAtMost(x: int, y: int, unit: nat)
    ensures x <= y ==> x * unit <= y * unit
  {
  }

  lemma QuotientAtLeast(n: nat, unit: nat, least: nat)
    requires 0 < unit && least * unit <= n
    ensures least <= n / unit
  {
    assert n < n / unit * unit + unit;
    if n / unit < least { TimesAtMost(n / unit + 1, least, unit); }
  }

  lemma LargeMultiple(n: nat, unit: nat)
    requires 0 < unit && TWO_53 / 2 * unit <= n
    ensures TWO_53 / 2 * unit <= NearestMultiple(n, unit) * unit
  {
    QuotientAtLeast(n, unit, TWO_53 / 2);
    assert n / unit <= NearestMultiple(n, unit);
    hide NearestMultiple;
    TimesAtMost(TWO_53 / 2, NearestMultiple(n, unit), unit);
  }

  lemma LargeHere(n: nat, unit: nat)
    requires 0 < unit && TWO_53 / 2 * unit <= n < TWO_53 * unit
    ensures TWO_53 / 2 * unit <= RoundAt(n, unit)
  {
    LargeMultiple(n, unit);
    hide NearestMultiple;
    assert RoundAt(n, unit) == NearestMultiple(n, unit) * unit;
  }

  lemma LargerScale(n: nat, unit: nat)
    requires 0 < unit && TWO_53 * unit <= n
    ensures RoundAt(n, unit) == RoundAt(n, 2 * unit)
    ensures TWO_53 / 2 * unit <= TWO_53 / 2 * (2 * unit) <= n && 2 * unit <= n
  {
    hide NearestMultiple;
  }

  lemma {:induction false} RoundedStaysLarge(n: nat, unit: nat)
    requires 0 < unit && TWO_53 / 2 * unit <= n
    ensures TWO_53 / 2 * unit <= RoundAt(n, unit)
    decreases n - unit
  {
    hide NearestMultiple, RoundAt;
    if n < TWO_53 * unit {
      LargeHere(n, unit);
    } else {
      LargerScale(n, unit);
      RoundedStaysLarge(n, 2 * unit);
    }
  }

  lemma SmallIsExact(n: nat)
    ensures n < TWO_53 ==> RoundAt(n, 1) == n
  {
  }

  lemma RoundedSign(n: int)
    ensures RoundToDouble(n) < 0 <==> n < 0
    ensures RoundToDouble(n) == 0 <==> n == 0
  {
    var m := if n < 0 then -n else n;
    if TWO_53 <= m { RoundedStaysLarge(m, 1); }
    hide RoundAt;
    SmallIsExact(m);
  }

  /** r is a multiple of unit that fits 53 bits, and none is nearer to n; halfway it is an even one. */
  predicate Nearest(n: nat, unit: nat, r: nat)
    requires 0 < unit
  {
    && r % unit == 0 && r <= TWO_53 * unit && n < TWO_53 * unit
    && 2 * (r - n) <= unit && 2 * (n - r) <= unit
    && (2 * (r - n) == unit || 2 * (n - r) == unit ==> r / unit % 2 == 0)
    && (unit == 1 || TWO_53 / 2 * unit <= n)
  }

  lemma QuotientBelow(n: nat, unit: nat, most: nat)
    requires 0 < unit && n < most * unit
    ensures n / unit < most && n == n / unit * unit + n % unit
  {
    if most <= n / unit { TimesAtMost(most, n / unit, unit); }
  }

  lemma RoundedHere(n: nat, unit: nat)
    requires 0 < unit && n < TWO_53 * unit && (unit == 1 || TWO_53 / 2 * unit <= n)
    ensures Nearest(n, unit, RoundAt(n, unit))
  {
    var k := NearestMultiple(n, unit);
    assert RoundAt(n, unit) == k * unit;
    hide RoundAt, Nearest;
    QuotientBelow(n, unit, TWO_53);
    MultipleOf(n / unit, unit);
    MultipleOf(k, unit);
    TimesAtMost(k, TWO_53, unit);
    ScaledNear(n, unit, n / unit, n % unit, k, n / unit * unit, k * unit);
  }

  lemma ScaledNear(n: nat, unit: nat, q: nat, rest: nat, k: nat, below: nat, r: nat)
    requires 0 < unit && n == below + rest && rest < unit && n < TWO_53 * unit && (unit == 1 || TWO_53 / 2 * unit <= n)
    requires k == if 2 * rest < unit || (2 * rest == unit && q % 2 == 0) then q else q + 1
    requires r == (if k == q then below else below + unit) <= TWO_53 * unit && r % unit == 0 && r / unit == k
    ensures Nearest(n, unit, r)
  {
  }

  lemma MultipleOf(k: nat, unit: nat)
    requires 0 < unit
    ensures k * unit % unit == 0 && k * unit / unit == k && (k + 1) * unit == k * unit + unit
  {
    QuotientIs(k * unit, unit, k);
  }

  lemma QuotientIs(n: nat, unit: nat, k: nat)
    requires 0 < unit && n == k * unit
    ensures n / unit == k && n % unit == 0
  {
    var q, rest := n / unit, n % unit;
    assert n == q * unit + rest;
    if q < k { TimesAtMost(q + 1, k, unit); }
    if k < q { TimesAtMost(k + 1, q, unit); }
  }

  /** An integer is taken to the nearest double, and to the even one of two, at the scale its size needs. */
  lemma {:induction false} RoundsToNearest(n: nat, unit: nat) returns (scale: nat)
    requires 0 < unit && (unit == 1 || TWO_53 / 2 * unit <= n)
    ensures 0 < scale && Nearest(n, scale, RoundAt(n, unit))
    decreases n - unit
  {
    if n < TWO_53 * unit {
      scale := unit;
      RoundedHere(n, unit);
    } else {
      scale := RoundsToNearest(n, 2 * unit);
    }
  }
}
