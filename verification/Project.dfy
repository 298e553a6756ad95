/** Projections: which fields of a document a query hands back. */
module Projection {
  import opened Optional
  import opened Bson

  datatype Refusal = FailedToParse | NotImplemented

  datatype Result<+T> = Ok(value: T) | Err(refusal: Refusal)

  datatype Parsed = Parsed(included: seq<Path>, excluded: seq<Path>, idExcluded: bool)

  /** is_truthy: a NaN is different from zero. */
  function Truthy(v: Value): Result<bool> {
    if v.Bool? then Ok(v.b)
    else if IsNumeric(v) then Ok(AsDouble(v) != Finite(0.0))
    else Err(NotImplemented)
  }

  function ParseFields(spec: seq<Field>, so: Parsed): Result<Parsed>
    decreases |spec|
  {
    if spec == [] then Ok(so)
    else
      match Truthy(spec[0].value)
      case Err(e) => Err(e)
      case Ok(keep) =>
        if spec[0].key == "_id" then ParseFields(spec[1..], so.(idExcluded := !keep))
        else
          match SplitPath(spec[0].key)
          case None => Err(FailedToParse)
          case Some(path) =>
            ParseFields(spec[1..], if keep then so.(included := so.included + [path])
                                   else so.(excluded := so.excluded + [path]))
  }

  function Parse(spec: seq<Field>): Result<Parsed> {
    match ParseFields(spec, Parsed([], [], false))
    case Err(e) => Err(e)
    case Ok(p) => if p.included != [] && p.excluded != [] then Err(FailedToParse) else Ok(p)
  }

  const ID: Path := ["_id"]

  function Include(doc: seq<Field>, out: seq<Field>, paths: seq<Path>): seq<Field>
    decreases |paths|
  {
    if paths == [] then out
    else Include(doc, IncludeOne(doc, out, paths[0]), paths[1..])
  }

  function IncludeOne(doc: seq<Field>, out: seq<Field>, path: Path): seq<Field> {
    match Get(doc, path)
    case Some(v) => Set(out, path, v)
    case None => out
  }

  function Exclude(out: seq<Field>, paths: seq<Path>): seq<Field>
    decreases |paths|
  {
    if paths == [] then out else Exclude(Unset(out, paths[0]), paths[1..])
  }

  /** The paths an inclusion keeps: the _id first unless it is switched off. */
  function Kept(p: Parsed): seq<Path> {
    (if p.idExcluded then [] else [ID]) + p.included
  }

  function Dropped(p: Parsed): seq<Path> {
    p.excluded + if p.idExcluded then [ID] else []
  }

  function Projected(doc: seq<Field>, spec: seq<Field>): Result<seq<Field>> {
    if spec == [] then Ok(doc)
    else
      match Parse(spec)
      case Err(e) => Err(e)
      case Ok(p) => Ok(if p.included == [] then Exclude(doc, Dropped(p)) else Include(doc, [], Kept(p)))
  }

  // ---------------------------------------------------------------- the loops that do it

  method ParseSpec(spec: seq<Field>) returns (r: Result<Parsed>)
    ensures r == Parse(spec)
  {
    var included: seq<Path>, excluded: seq<Path>, idExcluded := [], [], false;
    for k := 0 to |spec|
      invariant ParseFields(spec, Parsed([], [], false)) == ParseFields(spec[k..], Parsed(included, excluded, idExcluded))
    {
      assert spec[k..][0] == spec[k] && spec[k..][1..] == spec[k + 1..];
      var keep := Truthy(spec[k].value);
      if keep.Err? { return Err(keep.refusal); }
      if spec[k].key == "_id" {
        idExcluded := !keep.value;
        continue;
      }
      var path := SplitPath(spec[k].key);
      if path.None? { return Err(FailedToParse); }
      if keep.value { included := included + [path.value]; } else { excluded := excluded + [path.value]; }
    }
    if included != [] && excluded != [] { return Err(FailedToParse); }
    return Ok(Parsed(included, excluded, idExcluded));
  }

  method Project(doc: seq<Field>, spec: seq<Field>) returns (r: Result<seq<Field>>)
    ensures r == Projected(doc, spec)
  {
    if spec == [] { return Ok(doc); }
    var parsed := ParseSpec(spec);
    if parsed.Err? { return Err(parsed.refusal); }
    ParsedPaths(spec, Parsed([], [], false));
    if parsed.value.included == [] {
      r := RemoveAll(doc, parsed.value);
    } else {
      r := KeepAll(doc, parsed.value);
    }
  }

  method RemoveAll(doc: seq<Field>, p: Parsed) returns (r: Result<seq<Field>>)
    requires [] !in p.excluded
    ensures r == Ok(Exclude(doc, Dropped(p)))
  {
    var out := doc;
    var all := Dropped(p);
    for k := 0 to |p.excluded|
      invariant Exclude(doc, all) == Exclude(out, all[k..])
    {
      assert all[k..][0] == p.excluded[k] && all[k..][1..] == all[k + 1..];
      assert p.excluded[k] in p.excluded;
      out := UnsetIn(out, p.excluded[k], 0);
    }
    if p.idExcluded {
      assert all[|p.excluded|..] == [ID] && [ID][1..] == [];
      out := UnsetIn(out, ID, 0);
    } else {
      assert all[|p.excluded|..] == [];
    }
    return Ok(out);
  }

  method KeepAll(doc: seq<Field>, p: Parsed) returns (r: Result<seq<Field>>)
    requires [] !in p.included
    ensures r == Ok(Include(doc, [], Kept(p)))
  {
    var out := KeepId(doc, p);
    hide Get, Set, Kept;
    for k := 0 to |p.included|
      invariant Include(doc, [], Kept(p)) == Include(doc, out, p.included[k..])
    {
      assert p.included[k..][0] == p.included[k] && p.included[k..][1..] == p.included[k + 1..];
      assert p.included[k] in p.included;
      var value := PathGet(doc, p.included[k]);
      if value.Some? { out := SetIn(out, p.included[k], 0, value.value); }
    }
    return Ok(out);
  }

  method KeepId(doc: seq<Field>, p: Parsed) returns (out: seq<Field>)
    ensures Include(doc, out, p.included) == Include(doc, [], Kept(p))
  {
    out := [];
    if p.idExcluded {
      assert Kept(p) == p.included;
    } else {
      var id := PathGet(doc, ID);
      if id.Some? { out := out + [Field("_id", id.value)]; }
      SetFirst("_id", id.GetOr(Null));
      assert Kept(p)[0] == ID && Kept(p)[1..] == p.included;
      hide Get, Set;
    }
  }

  lemma SetFirst(key: string, v: Value)
    ensures Set([], [key], v) == [Field(key, v)]
  {
  }

  /** Paths come out of a specification non-empty and free of dots. */
  lemma {:induction false} ParsedPaths(spec: seq<Field>, so: Parsed)
    requires forall p :: p in so.included || p in so.excluded ==> Addressable(p)
    ensures ParseFields(spec, so).Ok? ==>
              forall p :: p in ParseFields(spec, so).value.included || p in ParseFields(spec, so).value.excluded ==>
                Addressable(p)
    decreases |spec|
  {
    if spec != [] && Truthy(spec[0].value).Ok? {
      var keep := Truthy(spec[0].value).value;
      if spec[0].key == "_id" {
        ParsedPaths(spec[1..], so.(idExcluded := !keep));
      } else if SplitPath(spec[0].key).Some? {
        var path := SplitPath(spec[0].key).value;
        SplitDotFree(spec[0].key);
        ParsedPaths(spec[1..], if keep then so.(included := so.included + [path])
                               else so.(excluded := so.excluded + [path]));
      }
    }
  }

  predicate Name(key: string) {
    key != [] && '.' !in key
  }

  predicate Addressable(path: Path) {
    path != [] && forall k :: 0 <= k < |path| ==> Name(path[k])
  }

  lemma {:induction false} SplitDotFree(dotted: string)
    ensures forall k :: 0 <= k < |Split(dotted)| ==> '.' !in Split(dotted)[k]
  {
    if dotted != [] { SplitDotFree(dotted[1..]); }
  }

  // ---------------------------------------------------------------- a projection is a sub-document

  /** Whatever can be read in one can be read in the other: the same scalar, or some container. */
  ghost predicate Within(out: seq<Field>, doc: seq<Field>) {
    forall q :: Agrees(Get(out, q), Get(doc, q))
  }

  predicate Agrees(a: Option<Value>, b: Option<Value>) {
    a.Some? ==> b.Some? && HasFields(a.value) == HasFields(b.value) && (!HasFields(a.value) ==> a == b)
  }

  lemma {:induction false} GetBelow(doc: seq<Field>, p: Path, below: Path)
    requires p != [] && below != []
    ensures Get(doc, p + below) == if Get(doc, p).Some? then GetIn(Get(doc, p).value, below) else None
    decreases |p|
  {
    assert (p + below)[0] == p[0] && (p + below)[1..] == p[1..] + below;
    if |p| == 1 {
      assert p[1..] + below == below;
    } else if Find(doc, p[0]).Some? && HasFields(Find(doc, p[0]).value) {
      GetBelow(Find(doc, p[0]).value.fields, p[1..], below);
    }
  }

  lemma IncludeOneWithin(doc: seq<Field>, out: seq<Field>, path: Path, q: Path)
    requires path != [] && Within(out, doc)
    ensures Agrees(Get(IncludeOne(doc, out, path), q), Get(doc, q))
  {
    if Get(doc, path).Some? && q != [] {
      var v := Get(doc, path).value;
      hide Get, Set, GetIn;
      if !Overlap(path, q) {
        GetSetElsewhere(out, path, v, q);
      } else if path <= q {
        var below := q[|path|..];
        assert path + below == q;
        GetSet(out, path, v, below);
        if below == [] {
          assert path == q;
        } else {
          GetBelow(doc, path, below);
        }
      } else {
        GetSetAbove(out, path, v, q);
        assert q + path[|q|..] == path;
        GetBelow(doc, q, path[|q|..]);
        ContainerAbove(doc, q, path[|q|..]);
      }
    }
  }

  lemma ContainerAbove(doc: seq<Field>, q: Path, below: Path)
    requires q != [] && below != [] && Get(doc, q + below).Some?
    ensures Get(doc, q).Some? && HasFields(Get(doc, q).value)
  {
    GetBelow(doc, q, below);
  }

  lemma {:induction false} IncludeWithin(doc: seq<Field>, out: seq<Field>, paths: seq<Path>)
    requires [] !in paths && Within(out, doc)
    ensures Within(Include(doc, out, paths), doc)
    decreases |paths|
  {
    if paths != [] {
      hide Get, Agrees, IncludeOne;
      var next := IncludeOne(doc, out, paths[0]);
      forall q ensures Agrees(Get(next, q), Get(doc, q)) { IncludeOneWithin(doc, out, paths[0], q); }
      IncludeWithin(doc, next, paths[1..]);
    }
  }

  lemma {:induction false} UnsetWithin(doc: seq<Field>, path: Path, q: Path)
    requires path != []
    ensures Agrees(Get(Unset(doc, path), q), Get(doc, q))
    decreases |path|
  {
    if q != [] {
      FindUnset(doc, path, q[0]);
      var old_ := Find(doc, path[0]);
      if q[0] == path[0] && |path| > 1 && old_.Some? && HasFields(old_.value) && |q| > 1 {
        UnsetWithin(old_.value.fields, path[1..], q[1..]);
        assert Get(doc, q) == Get(old_.value.fields, q[1..]);
        assert Get(Unset(doc, path), q) == Get(Unset(old_.value.fields, path[1..]), q[1..]);
      } else {
        hide Unset;
      }
    }
  }

  lemma {:induction false} ExcludeWithin(doc: seq<Field>, paths: seq<Path>)
    requires [] !in paths
    ensures Within(Exclude(doc, paths), doc)
    decreases |paths|
  {
    if paths != [] {
      ExcludeWithin(Unset(doc, paths[0]), paths[1..]);
      hide Get, Unset;
      forall q ensures Agrees(Get(Exclude(doc, paths), q), Get(doc, q)) {
        UnsetWithin(doc, paths[0], q);
        assert Agrees(Get(Exclude(doc, paths), q), Get(Unset(doc, paths[0]), q));
      }
    }
  }

  /** Every projection, of either kind, is a sub-document of its input: nothing is invented, no
      scalar altered, whatever the order and overlap of its paths and the arrays they cross. */
  lemma ProjectionWithin(doc: seq<Field>, spec: seq<Field>, q: Path)
    requires Projected(doc, spec).Ok?
    ensures Agrees(Get(Projected(doc, spec).value, q), Get(doc, q))
  {
    if spec != [] {
      ParsedPaths(spec, Parsed([], [], false));
      var p := Parse(spec).value;
      if p.included == [] {
        ExcludeWithin(doc, Dropped(p));
      } else {
        assert Within([], doc);
        IncludeWithin(doc, [], Kept(p));
      }
    }
  }

  /** An inclusion shows nothing beside the paths it lists and what lies on the way to them. */
  lemma InclusionOnly(doc: seq<Field>, spec: seq<Field>, q: Path)
    requires Projected(doc, spec).Ok? && spec != [] && Parse(spec).value.included != []
    requires forall p :: p in Kept(Parse(spec).value) ==> !Overlap(p, q)
    ensures Get(Projected(doc, spec).value, q) == None
  {
    IncludeElsewhere(doc, [], Kept(Parse(spec).value), q);
    NothingInside(q);
  }

  lemma {:induction false} IncludeElsewhere(doc: seq<Field>, out: seq<Field>, paths: seq<Path>, q: Path)
    requires forall p :: p in paths ==> !Overlap(p, q)
    ensures Get(Include(doc, out, paths), q) == Get(out, q)
    decreases |paths|
  {
    if paths != [] {
      hide Get, Overlap, Set;
      IncludeElsewhere(doc, IncludeOne(doc, out, paths[0]), paths[1..], q);
      assert paths[0] in paths;
      if Get(doc, paths[0]).Some? { GetSetElsewhere(out, paths[0], Get(doc, paths[0]).value, q); }
    }
  }

  /** An exclusion removes everything at and below the paths it lists, and every path apart from
      them reads as before. */
  lemma ExclusionExact(doc: seq<Field>, spec: seq<Field>, q: Path)
    requires Projected(doc, spec).Ok? && spec != [] && Parse(spec).value.included == []
    ensures var dropped, r := Dropped(Parse(spec).value), Get(Projected(doc, spec).value, q);
            ((exists p :: p in dropped && p <= q) ==> r == None) &&
            ((forall p :: p in dropped ==> !Overlap(p, q)) ==> r == Get(doc, q))
  {
    ParsedPaths(spec, Parsed([], [], false));
    var dropped := Dropped(Parse(spec).value);
    forall p | p in dropped && p <= q ensures Get(Exclude(doc, dropped), q) == None {
      ExcludeRemoves(doc, dropped, p, q);
    }
    if forall p :: p in dropped ==> !Overlap(p, q) { ExcludeElsewhere(doc, dropped, q); }
  }

  lemma {:induction false} ExcludeElsewhere(doc: seq<Field>, paths: seq<Path>, q: Path)
    requires forall p :: p in paths ==> !Overlap(p, q)
    ensures Get(Exclude(doc, paths), q) == Get(doc, q)
    decreases |paths|
  {
    if paths != [] {
      hide Get, Overlap, Unset;
      assert paths[0] in paths;
      GetUnsetElsewhere(doc, paths[0], q);
      ExcludeElsewhere(Unset(doc, paths[0]), paths[1..], q);
    }
  }

  lemma {:induction false} ExcludeRemoves(doc: seq<Field>, paths: seq<Path>, p: Path, q: Path)
    requires [] !in paths && p in paths && p <= q
    ensures Get(Exclude(doc, paths), q) == None
    decreases |paths|
  {
    hide Get, Unset;
    var next := Unset(doc, paths[0]);
    if p == paths[0] {
      GetUnset(doc, p);
      var below := q[|p|..];
      assert q == p + below;
      if below == [] {
        assert q == p;
      } else {
        GetBelow(next, p, below);
      }
      ExcludeWithin(next, paths[1..]);
      assert Agrees(Get(Exclude(next, paths[1..]), q), Get(next, q));
    } else {
      ExcludeRemoves(next, paths[1..], p, q);
    }
  }

  // ---------------------------------------------------------------- when inclusion is faithful

  /** Fields of one addressable name hold one value, at every depth. */
  predicate Consistent(v: Value) {
    HasFields(v) ==>
      (forall i, j :: 0 <= i < j < |v.fields| && v.fields[i].key == v.fields[j].key && Name(v.fields[i].key) ==>
         v.fields[i].value == v.fields[j].value) &&
      (forall i :: 0 <= i < |v.fields| && Name(v.fields[i].key) ==> Consistent(v.fields[i].value))
  }

  /** Below its top level the document repeats no name with different values. */
  predicate ConsistentBelow(doc: seq<Field>) {
    forall i :: 0 <= i < |doc| && Name(doc[i].key) && Find(doc, doc[i].key) == Some(doc[i].value) ==>
      Consistent(doc[i].value)
  }

  lemma {:induction false} FindIndex(fields: seq<Field>, key: string) returns (i: nat)
    requires Find(fields, key).Some?
    ensures i < |fields| && fields[i].key == key && fields[i].value == Find(fields, key).value
  {
    if fields[0].key == key {
      i := 0;
    } else {
      var j := FindIndex(fields[1..], key);
      i := j + 1;
    }
  }

  lemma {:induction false} FindEarliest(fields: seq<Field>, i: nat)
    requires i < |fields|
    ensures Find(fields, fields[i].key).Some?
  {
    if i > 0 { FindEarliest(fields[1..], i - 1); }
  }

  lemma {:induction false} ConsistentReads(v: Value, path: Path)
    requires Consistent(v) && Addressable(path) && GetIn(v, path).Some?
    ensures Everywhere(v.fields, path, GetIn(v, path).value)
    decreases |path|
  {
    var i := FindIndex(v.fields, path[0]);
    var first := v.fields[i].value;
    forall k | 0 <= k < |v.fields| && v.fields[k].key == path[0] ensures v.fields[k].value == first {
      assert i < k || k < i || k == i;
    }
    if |path| > 1 { ConsistentReads(first, path[1..]); }
    MatchesAll(v.fields, path, first, GetIn(v, path).value);
  }

  lemma {:induction false} MatchesAll(fields: seq<Field>, path: Path, first: Value, v: Value)
    requires path != [] && forall k :: 0 <= k < |fields| && fields[k].key == path[0] ==> fields[k].value == first
    requires if |path| == 1 then first == v else HasFields(first) && Everywhere(first.fields, path[1..], v)
    ensures EveryMatch(fields, path, v)
    decreases |fields|
  {
    hide Everywhere;
    if fields != [] { MatchesAll(fields[1..], path, first, v); }
  }

  lemma {:induction false} ConsistentInside(v: Value, path: Path)
    requires Consistent(v) && Addressable(path) && GetIn(v, path).Some?
    ensures Consistent(GetIn(v, path).value)
    decreases |path|
  {
    var i := FindIndex(v.fields, path[0]);
    if |path| > 1 { ConsistentInside(v.fields[i].value, path[1..]); }
  }

  lemma ConsistentAt(doc: seq<Field>, path: Path)
    requires ConsistentBelow(doc) && Addressable(path) && Get(doc, path).Some?
    ensures Consistent(Get(doc, path).value)
  {
    var i := FindIndex(doc, path[0]);
    if |path| > 1 { ConsistentInside(doc[i].value, path[1..]); }
  }

  /** One more inclusion leaves the paths already included reading as in the document. */
  lemma IncludeOneFaithful(doc: seq<Field>, out: seq<Field>, q: Path, p: Path)
    requires ConsistentBelow(doc) && Addressable(q) && Addressable(p)
    requires Get(doc, p).Some? && (p == q || Get(out, p) == Get(doc, p))
    ensures Get(IncludeOne(doc, out, q), p) == Get(doc, p)
  {
    if Get(doc, q).Some? {
      var y := Get(doc, q).value;
      hide Get, Set, GetIn, ConsistentBelow, Consistent;
      if !Overlap(q, p) {
        GetSetElsewhere(out, q, y, p);
      } else if q <= p {
        var below := p[|q|..];
        assert q + below == p;
        GetSet(out, q, y, below);
        if below == [] {
          assert p == q;
        } else {
          GetBelow(doc, q, below);
        }
      } else {
        var rest, x := q[|p|..], Get(doc, p).value;
        assert p + rest == q && Addressable(rest);
        GetSetAbove(out, q, y, p);
        GetBelow(doc, p, rest);
        ConsistentAt(doc, p);
        SetFieldFixed(x, rest, y);
      }
    }
  }

  lemma SetFieldFixed(x: Value, rest: Path, y: Value)
    requires Consistent(x) && Addressable(rest) && GetIn(x, rest) == Some(y)
    ensures SetField(x, rest, y) == x
  {
    ConsistentReads(x, rest);
    SetFixed(x.fields, rest, y);
    hide Consistent, Everywhere, Set;
  }

  lemma {:induction false} IncludeFaithful(doc: seq<Field>, out: seq<Field>, paths: seq<Path>, done: set<Path>, p: Path)
    requires ConsistentBelow(doc) && forall q :: q in paths || q in done ==> Addressable(q)
    requires forall q :: q in done && Get(doc, q).Some? ==> Get(out, q) == Get(doc, q)
    requires (p in paths || p in done) && Get(doc, p).Some?
    ensures Get(Include(doc, out, paths), p) == Get(doc, p)
    decreases |paths|
  {
    hide Get, IncludeOne, ConsistentBelow, Addressable;
    if paths != [] {
      var next := IncludeOne(doc, out, paths[0]);
      forall q | q in done + {paths[0]} && Get(doc, q).Some? ensures Get(next, q) == Get(doc, q) {
        assert Addressable(paths[0]) by { assert paths[0] in paths; }
        IncludeOneFaithful(doc, out, paths[0], q);
      }
      assert forall q :: q in paths[1..] ==> q in paths;
      assert p in paths ==> p == paths[0] || p in paths[1..];
      IncludeFaithful(doc, next, paths[1..], done + {paths[0]}, p);
    }
  }

  predicate Inclusion(spec: seq<Field>) {
    spec != [] && Parse(spec).Ok? && Parse(spec).value.included != []
  }

  /** Every kept path the document has reads the same in the output. */
  predicate Faithful(doc: seq<Field>, spec: seq<Field>)
    requires Inclusion(spec)
  {
    forall p :: p in Kept(Parse(spec).value) && Get(doc, p).Some? ==>
      Get(Projected(doc, spec).value, p) == Get(doc, p)
  }

  lemma InclusionFaithful(doc: seq<Field>, spec: seq<Field>)
    requires ConsistentBelow(doc) && Inclusion(spec)
    ensures Faithful(doc, spec)
  {
    ParsedPaths(spec, Parsed([], [], false));
    var kept := Kept(Parse(spec).value);
    hide ConsistentBelow, Parse, Get, Include;
    forall p | p in kept && Get(doc, p).Some? ensures Get(Include(doc, [], kept), p) == Get(doc, p) {
      IncludeFaithful(doc, [], kept, {}, p);
    }
  }

  lemma {:induction false} Inconsistency(v: Value) returns (r: Path)
    requires !Consistent(v)
    ensures Addressable(r) && GetIn(v, r).Some? && !Everywhere(v.fields, r, GetIn(v, r).value)
  {
    if i, j :| 0 <= i < j < |v.fields| && v.fields[i].key == v.fields[j].key && Name(v.fields[i].key) &&
               v.fields[i].value != v.fields[j].value {
      r := [v.fields[i].key];
      FindEarliest(v.fields, i);
      var first := Find(v.fields, r[0]).value;
      EveryMatchAt(v.fields, r, first, if v.fields[i].value == first then j else i);
    } else {
      var i :| 0 <= i < |v.fields| && Name(v.fields[i].key) && !Consistent(v.fields[i].value);
      var below := Inconsistency(v.fields[i].value);
      r := [v.fields[i].key] + below;
      FindEarliest(v.fields, i);
      var k := FindIndex(v.fields, r[0]);
      assert v.fields[k].value == v.fields[i].value by { assert i < k || k < i || i == k; }
      assert r[1..] == below && GetIn(v, r) == GetIn(v.fields[i].value, below);
      EveryMatchAt(v.fields, r, GetIn(v, r).value, i);
    }
  }

  lemma {:induction false} EveryMatchAt(fields: seq<Field>, path: Path, v: Value, k: nat)
    requires path != [] && k < |fields| && fields[k].key == path[0]
    requires if |path| == 1 then fields[k].value != v
             else HasFields(fields[k].value) && !Everywhere(fields[k].value.fields, path[1..], v)
    ensures !EveryMatch(fields, path, v)
    decreases k
  {
    hide Everywhere;
    if k > 0 { EveryMatchAt(fields[1..], path, v, k - 1); }
  }

  /** A field and a path inside it, included in this order, expose a repeated name. */
  lemma ExposesRepeat(doc: seq<Field>, out: seq<Field>, key: string, r: Path)
    requires Find(doc, key).Some? && r != [] && GetIn(Find(doc, key).value, r).Some?
    requires !Everywhere(Find(doc, key).value.fields, r, GetIn(Find(doc, key).value, r).value)
    ensures Get(Include(doc, out, [[key], [key] + r]), [key]) != Get(doc, [key])
  {
    var x, path := Find(doc, key).value, [key] + r;
    var y := GetIn(x, r).value;
    assert path[1..] == r && path[|[key]|..] == r;
    assert Get(doc, path) == Some(y);
    var first := Set(out, [key], x);
    assert Get(first, [key]) == Some(x) by { GetSet(out, [key], x, []); assert [key] + [] == [key]; }
    GetSetAbove(first, path, y, [key]);
    SetFixed(x.fields, r, y);
    hide Set, GetIn, Everywhere;
    var paths := [[key], path];
    assert paths[1..] == [path] && [path][1..] == [];
    assert Include(doc, out, paths) == Include(doc, first, [path]) == Set(first, path, y);
  }

  lemma Unfaithful(doc: seq<Field>) returns (spec: seq<Field>)
    requires !ConsistentBelow(doc)
    ensures Inclusion(spec) && !Faithful(doc, spec)
  {
    var i :| 0 <= i < |doc| && Name(doc[i].key) && Find(doc, doc[i].key) == Some(doc[i].value) && !Consistent(doc[i].value);
    var key := doc[i].key;
    var r := Inconsistency(doc[i].value);
    var path := [key] + r;
    assert Addressable(path) && Addressable([key]);
    SplitJoined(path);
    SplitJoined([key]);
    var last := Field(Joined(path), Bool(true));
    NotTheId(path);
    assert [last][1..] == [] && [] + [path] == [path] && [[key]] + [path] == [[key], path];
    hide SplitPath, Joined, Consistent, Find, GetIn, Everywhere;
    if key == "_id" {
      spec := ExposeId(doc, last, path, r);
    } else {
      spec := ExposeField(doc, key, last, path, r);
    }
  }

  lemma ExposeId(doc: seq<Field>, last: Field, path: Path, r: Path) returns (spec: seq<Field>)
    requires last.value == Bool(true) && last.key != "_id" && SplitPath(last.key) == Some(path) && path == ["_id"] + r
    requires Find(doc, "_id").Some? && r != [] && GetIn(Find(doc, "_id").value, r).Some?
    requires !Everywhere(Find(doc, "_id").value.fields, r, GetIn(Find(doc, "_id").value, r).value)
    ensures Inclusion(spec) && !Faithful(doc, spec)
  {
    spec := [last];
    assert [] + [path] == [path] && [last] + [] == [last];
    ParseKeep(last, [], Parsed([], [], false), path);
    hide SplitPath;
    var kept := Kept(Parse(spec).value);
    assert kept == [["_id"], path] && ["_id"] in kept;
    ExposesRepeat(doc, [], "_id", r);
    hide Find, GetIn, Everywhere, Include, Parse;
  }

  lemma ExposeField(doc: seq<Field>, key: string, last: Field, path: Path, r: Path) returns (spec: seq<Field>)
    requires last.value == Bool(true) && last.key != "_id" && SplitPath(last.key) == Some(path) && path == [key] + r
    requires key != "_id" && SplitPath(key) == Some([key])
    requires Find(doc, key).Some? && r != [] && GetIn(Find(doc, key).value, r).Some?
    requires !Everywhere(Find(doc, key).value.fields, r, GetIn(Find(doc, key).value, r).value)
    ensures Inclusion(spec) && !Faithful(doc, spec)
  {
    var first := Field(key, Bool(true));
    spec := [first] + [last];
    assert [] + [[key]] == [[key]] && [[key]] + [path] == [[key], path] && [last] + [] == [last];
    ParseKeep(first, [last], Parsed([], [], false), [key]);
    ParseKeep(last, [], Parsed([[key]], [], false), path);
    hide SplitPath;
    var kept := Kept(Parse(spec).value);
    assert kept == [ID, [key], path] && kept[1..] == [[key], path] && kept[0] == ID && [key] in kept;
    ExposesRepeat(doc, IncludeOne(doc, [], ID), key, r);
    hide Find, GetIn, Everywhere, Parse, IncludeOne;
  }

  lemma ParseKeep(f: Field, rest: seq<Field>, so: Parsed, path: Path)
    requires f.value == Bool(true) && f.key != "_id" && SplitPath(f.key) == Some(path)
    ensures ParseFields([f] + rest, so) == ParseFields(rest, so.(included := so.included + [path]))
  {
    assert ([f] + rest)[1..] == rest;
    hide SplitPath;
  }

  lemma NotTheId(path: Path)
    requires Addressable(path) && |path| > 1
    ensures Joined(path) != "_id"
  {
    assert '.' in Joined(path) by { assert Joined(path)[|path[0]|] == '.'; }
  }

  // ---------------------------------------------------------------- what a specification asks

  /** true, or a number that is not zero; a NaN is not zero. */
  predicate Shows(v: Value) {
    match v
    case Bool(b) => b
    case Int32(n) => n != 0
    case Int64(n) => n != 0
    case Dbl(d) => d != Finite(0.0)
    case _ => false
  }

  predicate Hides(v: Value) {
    v == Bool(false) || v == Int32(0) || v == Int64(0) || v == Dbl(Finite(0.0))
  }

  /** The field shows a path other than the _id. */
  predicate ListsAt(f: Field, p: Path) {
    f.key != "_id" && Shows(f.value) && SplitPath(f.key) == Some(p)
  }

  predicate OmitsAt(f: Field, p: Path) {
    f.key != "_id" && Hides(f.value) && SplitPath(f.key) == Some(p)
  }

  ghost predicate Lists(spec: seq<Field>, p: Path) {
    exists f :: f in spec && ListsAt(f, p)
  }

  ghost predicate Omits(spec: seq<Field>, p: Path) {
    exists f :: f in spec && OmitsAt(f, p)
  }

  /** Of several words on the _id the last counts. */
  function LastId(spec: seq<Field>): Option<Value> {
    if spec == [] then None
    else if LastId(spec[1..]).Some? then LastId(spec[1..])
    else if spec[0].key == "_id" then Some(spec[0].value)
    else None
  }

  predicate HidesId(spec: seq<Field>) {
    LastId(spec).Some? && Hides(LastId(spec).value)
  }

  /** A specification that lists any path shows what it lists, and the _id unless it is hidden; any
      other takes away what it omits. */
  ghost predicate Listing(spec: seq<Field>) {
    exists p :: Lists(spec, p)
  }

  ghost predicate Keeps(spec: seq<Field>, p: Path) {
    Lists(spec, p) || (p == ["_id"] && !HidesId(spec))
  }

  ghost predicate Drops(spec: seq<Field>, p: Path) {
    Omits(spec, p) || (p == ["_id"] && HidesId(spec))
  }

  /** The first field that cannot be read. */
  function FieldFault(spec: seq<Field>): Option<Refusal> {
    if spec == [] then None
    else if !Shows(spec[0].value) && !Hides(spec[0].value) then Some(NotImplemented)
    else if spec[0].key != "_id" && SplitPath(spec[0].key) == None then Some(FailedToParse)
    else FieldFault(spec[1..])
  }

  /** Why a specification is refused, if it is. */
  ghost function SpecFault(spec: seq<Field>): Option<Refusal> {
    if FieldFault(spec).Some? then FieldFault(spec)
    else if Listing(spec) && exists p :: Omits(spec, p) then Some(FailedToParse)
    else None
  }

  lemma TruthyIs(v: Value)
    ensures match Truthy(v)
            case Ok(keep) => if keep then Shows(v) && !Hides(v) else Hides(v) && !Shows(v)
            case Err(e) => e == NotImplemented && !Shows(v) && !Hides(v)
  {
    if v.Int64? { RoundedSign(v.n); }
    hide RoundToDouble;
  }

  lemma ListsFirst(f: Field, rest: seq<Field>, p: Path)
    ensures Lists([f] + rest, p) <==> ListsAt(f, p) || Lists(rest, p)
    ensures Omits([f] + rest, p) <==> OmitsAt(f, p) || Omits(rest, p)
  {
    hide ListsAt, OmitsAt;
    assert forall g :: g in [f] + rest <==> g == f || g in rest;
  }

  /** What parsing a specification behind others makes of it. */
  ghost predicate ParsedAs(spec: seq<Field>, so: Parsed, r: Result<Parsed>) {
    match r
    case Err(e) => FieldFault(spec) == Some(e)
    case Ok(p) =>
      && FieldFault(spec) == None
      && (forall q :: q in p.included <==> q in so.included || Lists(spec, q))
      && (forall q :: q in p.excluded <==> q in so.excluded || Omits(spec, q))
      && p.idExcluded == (if LastId(spec).Some? then HidesId(spec) else so.idExcluded)
  }

  lemma {:induction false} ParsedMeans(spec: seq<Field>, so: Parsed)
    ensures ParsedAs(spec, so, ParseFields(spec, so))
    decreases |spec|
  {
    hide SplitPath, Truthy, Shows, Hides, ListsAt, OmitsAt;
    if spec == [] {
      assert forall q :: !Lists(spec, q) && !Omits(spec, q);
    } else {
      TruthyIs(spec[0].value);
      var keep := Truthy(spec[0].value);
      if keep.Ok? {
        if spec[0].key == "_id" {
          ParsedMeans(spec[1..], so.(idExcluded := !keep.value));
          ParsedField(spec, so, so.(idExcluded := !keep.value), ParseFields(spec, so));
        } else if SplitPath(spec[0].key).Some? {
          var path := SplitPath(spec[0].key).value;
          var next := if keep.value then so.(included := so.included + [path]) else so.(excluded := so.excluded + [path]);
          ParsedMeans(spec[1..], next);
          ParsedField(spec, so, next, ParseFields(spec, so));
        }
      }
    }
  }

  /** One more field in front. */
  lemma ParsedField(spec: seq<Field>, so: Parsed, next: Parsed, r: Result<Parsed>)
    requires spec != [] && (Shows(spec[0].value) != Hides(spec[0].value)) && ParsedAs(spec[1..], next, r)
    requires if spec[0].key == "_id" then next == so.(idExcluded := Hides(spec[0].value))
             else SplitPath(spec[0].key).Some? &&
                  var path := SplitPath(spec[0].key).value;
                  next == if Shows(spec[0].value) then so.(included := so.included + [path])
                          else so.(excluded := so.excluded + [path])
    ensures ParsedAs(spec, so, r)
  {
    hide SplitPath, Shows, Hides, Lists, Omits;
    assert spec == [spec[0]] + spec[1..];
    if r.Ok? {
      forall q
        ensures q in r.value.included <==> q in so.included || Lists(spec, q)
        ensures q in r.value.excluded <==> q in so.excluded || Omits(spec, q)
      {
        ListsFirst(spec[0], spec[1..], q);
      }
    }
  }

  /** Parsing a specification is reading off what it asks. */
  lemma ParseMeans(spec: seq<Field>)
    ensures match Parse(spec)
            case Err(e) => SpecFault(spec) == Some(e)
            case Ok(p) =>
              && SpecFault(spec) == None && (p.included != [] <==> Listing(spec)) && p.idExcluded == HidesId(spec)
              && (forall q :: q in Kept(p) <==> Keeps(spec, q)) && (forall q :: q in Dropped(p) <==> Drops(spec, q))
  {
    hide ParseFields, Lists, Omits, LastId, FieldFault;
    ParsedMeans(spec, Parsed([], [], false));
    var r := ParseFields(spec, Parsed([], [], false));
    if r.Ok? {
      var p := r.value;
      if p.included != [] { assert p.included[0] in p.included; }
      if p.excluded != [] { assert p.excluded[0] in p.excluded; }
    }
  }

  /** A projection is refused exactly for its specification's fault. */
  lemma ProjectionRefused(doc: seq<Field>, spec: seq<Field>)
    ensures match Projected(doc, spec) case Err(e) => SpecFault(spec) == Some(e) case Ok(_) => SpecFault(spec) == None
  {
    hide Parse, SpecFault, Include, Exclude;
    ParseMeans(spec);
    if spec == [] { NothingAsked(); }
  }

  lemma NothingAsked()
    ensures SpecFault([]) == None && !Listing([])
  {
    assert forall p :: !Omits([], p) && !Lists([], p);
  }

  /** A listing shows nothing beside the paths it keeps and what lies on the way to them … */
  lemma ListedOnly(doc: seq<Field>, spec: seq<Field>, q: Path)
    requires Projected(doc, spec).Ok? && Listing(spec) && forall p :: Keeps(spec, p) ==> !Overlap(p, q)
    ensures Get(Projected(doc, spec).value, q) == None
  {
    hide Parse, Projected, Overlap, Lists, Keeps, Get;
    ParseMeans(spec);
    ListingParses(doc, spec);
    InclusionOnly(doc, spec, q);
  }

  lemma ListingParses(doc: seq<Field>, spec: seq<Field>)
    ensures Projected(doc, spec).Ok? && Listing(spec) ==> Inclusion(spec)
    ensures Inclusion(spec) ==> Projected(doc, spec).Ok? && Listing(spec)
    ensures Projected(doc, spec).Ok? && spec != [] && !Listing(spec) ==>
              Parse(spec).Ok? && Parse(spec).value.included == []
  {
    hide Parse, Include, Exclude, Lists, Keeps, Drops;
    ParseMeans(spec);
    if spec == [] { NothingAsked(); }
  }

  /** … and shows each of those the document has as the document has it, whatever is listed, exactly on
      the documents that below their top level repeat no name with different values. */
  lemma ListedFaithfully(doc: seq<Field>)
    ensures ConsistentBelow(doc) <==>
            forall spec, p :: Projected(doc, spec).Ok? && Listing(spec) && Keeps(spec, p) && Get(doc, p).Some? ==>
              Get(Projected(doc, spec).value, p) == Get(doc, p)
  {
    hide ConsistentBelow, Projected, Listing, Keeps, Get, Parse, Inclusion, Faithful;
    if ConsistentBelow(doc) {
      forall spec, p | Projected(doc, spec).Ok? && Listing(spec) && Keeps(spec, p) && Get(doc, p).Some?
        ensures Get(Projected(doc, spec).value, p) == Get(doc, p)
      {
        ListingParses(doc, spec);
        InclusionFaithful(doc, spec);
        FaithfulAt(doc, spec, p);
      }
    } else {
      var spec := Unfaithful(doc);
      ListingParses(doc, spec);
      var p := UnfaithfulAt(doc, spec);
      assert Projected(doc, spec).Ok? && Listing(spec) && Keeps(spec, p) && Get(doc, p).Some?;
    }
  }

  lemma FaithfulAt(doc: seq<Field>, spec: seq<Field>, p: Path)
    requires Inclusion(spec) && Faithful(doc, spec) && Keeps(spec, p) && Get(doc, p).Some?
    ensures Projected(doc, spec).Ok? && Get(Projected(doc, spec).value, p) == Get(doc, p)
  {
    hide Get, Keeps, Include, Parse;
    ParseMeans(spec);
  }

  lemma UnfaithfulAt(doc: seq<Field>, spec: seq<Field>) returns (p: Path)
    requires Inclusion(spec) && !Faithful(doc, spec)
    ensures Projected(doc, spec).Ok? && Keeps(spec, p) && Get(doc, p).Some?
            && Get(Projected(doc, spec).value, p) != Get(doc, p)
  {
    hide Get, Keeps, Include, Parse;
    ParseMeans(spec);
    p :| p in Kept(Parse(spec).value) && Get(doc, p).Some? && Get(Projected(doc, spec).value, p) != Get(doc, p);
  }

  /** Without a listing, what lies at or below a dropped path is gone, and what overlaps none of them
      reads as before. */
  lemma OmittedExactly(doc: seq<Field>, spec: seq<Field>, q: Path)
    requires Projected(doc, spec).Ok? && spec != [] && !Listing(spec)
    ensures (exists p :: Drops(spec, p) && p <= q) ==> Get(Projected(doc, spec).value, q) == None
    ensures (forall p :: Drops(spec, p) ==> !Overlap(p, q)) ==> Get(Projected(doc, spec).value, q) == Get(doc, q)
  {
    hide Parse, Projected, Overlap, Listing, Drops, Get;
    ListingParses(doc, spec);
    ParseMeans(spec);
    ExclusionExact(doc, spec, q);
  }

  /** A listing that shows the _id puts it first. */
  lemma IdLeads(doc: seq<Field>, spec: seq<Field>)
    requires Projected(doc, spec).Ok? && Listing(spec) && !HidesId(spec) && Get(doc, ["_id"]).Some?
    ensures Projected(doc, spec).value != [] && Projected(doc, spec).value[0].key == "_id"
  {
    hide Parse, Listing, Get, Set, HidesId, Include;
    ListingParses(doc, spec);
    RealPaths(spec);
    ParseMeans(spec);
    var p := Parse(spec).value;
    SetPlaces([], ID, Get(doc, ID).value);
    assert Kept(p)[0] == ID && Kept(p)[1..] == p.included;
    IncludeFirst(doc, [], Kept(p));
    FirstStays(doc, IncludeOne(doc, [], ID), p.included);
  }

  lemma RealPaths(spec: seq<Field>)
    requires Parse(spec).Ok?
    ensures [] !in Parse(spec).value.included
  {
    ParsedPaths(spec, Parsed([], [], false));
  }

  lemma IncludeFirst(doc: seq<Field>, out: seq<Field>, paths: seq<Path>)
    requires paths != []
    ensures Include(doc, out, paths) == Include(doc, IncludeOne(doc, out, paths[0]), paths[1..])
  {
    hide IncludeOne;
  }

  lemma {:induction false} FirstStays(doc: seq<Field>, out: seq<Field>, paths: seq<Path>)
    requires out != [] && [] !in paths
    ensures Include(doc, out, paths) != [] && Include(doc, out, paths)[0].key == out[0].key
    decreases |paths|
  {
    hide Get, Set;
    if paths != [] {
      if Get(doc, paths[0]).Some? { SetPlaces(out, paths[0], Get(doc, paths[0]).value); }
      FirstStays(doc, IncludeOne(doc, out, paths[0]), paths[1..]);
    }
  }
}
