/** The BSON comparison order and the stable sort built on it. */
module SortOrder {
  import opened Optional
  import opened Bson

  function Sign(n: int): int {
    if n < 0 then -1 else if n > 0 then 1 else 0
  }

  const TWO_63: int := 0x8000_0000_0000_0000
  const TWO_64: int := 0x1_0000_0000_0000_0000

  /** The value a 64-bit register holds after arithmetic that left its range. */
  function Wrap64(n: int): int {
    (n + TWO_63) % TWO_64 - TWO_63
  }

  function TypeRank(v: Value): nat {
    match v
    case MinKey => 0
    case Null => 1
    case Int32(_) => 2
    case Int64(_) => 2
    case Dbl(_) => 2
    case Utf8(_) => 3
    case Document(_) => 4
    case Array(_) => 5
    case Binary(_) => 6
    case ObjectId(_) => 7
    case Bool(_) => 8
    case DateTime(_) => 9
    case Timestamp(_, _) => 10
    case Regex(_) => 11
    case MaxKey => 12
  }

  function CompareBytes(a: string, b: string): int {
    if a == [] || b == [] then Sign(|a| - |b|)
    else if a[0] != b[0] then (if a[0] < b[0] then -1 else 1)
    else CompareBytes(a[1..], b[1..])
  }

  function CompareDoubles(a: Double, b: Double): int {
    if DoubleLess(a, b) then -1 else if DoubleLess(b, a) then 1 else 0
  }

  function Compare(a: Value, b: Value): int
    decreases a, |FieldsIn(a)| + 1
  {
    if TypeRank(a) != TypeRank(b) then (if TypeRank(a) < TypeRank(b) then -1 else 1)
    else if HasFields(a) then CompareFrom(a, b, 0)
    else CompareScalars(a, b)
  }

  function CompareScalars(a: Value, b: Value): int
    requires TypeRank(a) == TypeRank(b) && !HasFields(a)
  {
    if IsNumeric(a) then CompareDoubles(AsDouble(a), AsDouble(b))
    else
      match a
      case Utf8(_) => CompareBytes(a.text, b.text)
      case Binary(_) => CompareBytes(a.data, b.data)
      case ObjectId(_) => CompareBytes(a.data, b.data)
      case Bool(_) => if a.b == b.b then 0 else if b.b then -1 else 1
      case DateTime(_) => Sign(Wrap64(a.millis - b.millis))
      case Timestamp(_, _) => if a.t != b.t then (if a.t < b.t then -1 else 1) else Sign(a.i - b.i)
      case Regex(_) => if CompareBytes(a.pattern, b.pattern) < 0 then -1 else 0
      case _ => 0
  }

  /** Fields from index i on: arrays element by element, documents name before value. */
  function CompareFrom(a: Value, b: Value, i: nat): int
    requires HasFields(a) && TypeRank(a) == TypeRank(b) && i <= |a.fields| && i <= |b.fields|
    decreases a, |a.fields| - i
  {
    if i == |a.fields| || i == |b.fields| then Sign(|a.fields| - |b.fields|)
    else if a.Document? && a.fields[i].key != b.fields[i].key then CompareBytes(a.fields[i].key, b.fields[i].key)
    else
      var diff := Compare(a.fields[i].value, b.fields[i].value);
      if diff != 0 then diff else CompareFrom(a, b, i + 1)
  }

  // ---------------------------------------------------------------- where it is an order

  /** What lies at the bottom of a value: every scalar in it, or the value itself. */
  ghost predicate LeavesIn(v: Value, leaves: iset<Value>)
    decreases v
  {
    if HasFields(v) then forall i :: 0 <= i < |v.fields| ==> LeavesIn(v.fields[i].value, leaves)
    else v in leaves
  }

  /** A date is a 64-bit number of milliseconds. */
  predicate Fits(v: Value) {
    v.DateTime? ==> -TWO_63 <= v.millis < TWO_63
  }

  ghost predicate DatesFit(leaves: iset<Value>) {
    forall v :: v in leaves ==> Fits(v)
  }

  predicate HalfTurn(x: int, y: int) {
    x - y == TWO_63 || y - x == TWO_63
  }

  /** Near, near, far: the wrapped differences of three dates chase each other. */
  predicate Chase(x: int, y: int, z: int) {
    x < y < z && y - x < TWO_63 && z - y < TWO_63 < z - x
  }

  ghost predicate TamePatterns(leaves: iset<Value>) {
    forall p, q :: Regex(p) in leaves && Regex(q) in leaves ==> p == q
  }

  ghost predicate TameNumbers(leaves: iset<Value>) {
    Dbl(NotANumber) in leaves ==>
      forall x, y :: x in leaves && y in leaves && IsNumber(x) && IsNumber(y) ==> AsDouble(x) == AsDouble(y)
  }

  ghost predicate TameDates(leaves: iset<Value>) {
    && (forall x, y :: DateTime(x) in leaves && DateTime(y) in leaves ==> !HalfTurn(x, y))
    && (forall x, y, z :: DateTime(x) in leaves && DateTime(y) in leaves && DateTime(z) in leaves ==> !Chase(x, y, z))
  }

  /** No two different patterns, no NaN beside two different numbers, no dates half a turn apart and
      no three that chase each other. */
  ghost predicate Tame(leaves: iset<Value>) {
    TamePatterns(leaves) && TameNumbers(leaves) && TameDates(leaves)
  }

  /** A numeric value that is a number. */
  predicate IsNumber(v: Value) {
    IsNumeric(v) && v != Dbl(NotANumber)
  }

  /** Two comparisons in a row and the one they imply: at most zero, and zero only if both are. */
  predicate Chains(ab: int, bc: int, ac: int) {
    ab <= 0 && bc <= 0 ==> ac <= 0 && (ac == 0 <==> ab == 0 && bc == 0)
  }

  lemma {:induction false} BytesOpposite(a: string, b: string)
    ensures CompareBytes(a, b) == -CompareBytes(b, a)
    ensures CompareBytes(a, b) == 0 <==> a == b
  {
    if a != [] && b != [] {
      BytesOpposite(a[1..], b[1..]);
      assert a == [a[0]] + a[1..] && b == [b[0]] + b[1..];
    }
  }

  lemma {:induction false} BytesChain(a: string, b: string, c: string)
    ensures Chains(CompareBytes(a, b), CompareBytes(b, c), CompareBytes(a, c))
  {
    if a != [] && b != [] && c != [] { BytesChain(a[1..], b[1..], c[1..]); }
  }

  /** At the first place where the two differ, a has the smaller byte. */
  ghost predicate SmallerFirst(a: string, b: string) {
    exists k :: 0 <= k < |a| && k < |b| && a[..k] == b[..k] && a[k] < b[k]
  }

  lemma SmallerBehind(a: string, b: string)
    requires a != [] && b != [] && a[0] == b[0]
    ensures SmallerFirst(a, b) <==> SmallerFirst(a[1..], b[1..])
    ensures a < b <==> a[1..] < b[1..]
  {
    var a', b' := a[1..], b[1..];
    assert a == [a[0]] + a' && b == [b[0]] + b';
    if k :| 0 <= k < |a'| && k < |b'| && a'[..k] == b'[..k] && a'[k] < b'[k] {
      assert a[..k + 1] == [a[0]] + a'[..k] && b[..k + 1] == [b[0]] + b'[..k] && a[k + 1] < b[k + 1];
    }
    if k :| 0 <= k < |a| && k < |b| && a[..k] == b[..k] && a[k] < b[k] {
      assert a'[..k - 1] == a[..k][1..] && b'[..k - 1] == b[..k][1..] && a'[k - 1] < b'[k - 1];
    }
  }

  lemma SmallerAhead(a: string, b: string)
    requires a != [] && b != [] && a[0] != b[0]
    ensures (SmallerFirst(a, b) <==> a[0] < b[0]) && !(a < b)
  {
    assert a[..0] == b[..0];
    assert forall k :: 0 < k <= |a| && k <= |b| ==> a[..k][0] == a[0] && b[..k][0] == b[0];
  }

  /** Bytes compare as in a dictionary: at the first difference, or the shorter one first. */
  lemma {:induction false} BytesLexicographic(a: string, b: string)
    ensures CompareBytes(a, b) < 0 <==> a < b || SmallerFirst(a, b)
  {
    if a != [] && b != [] {
      hide SmallerFirst;
      if a[0] == b[0] {
        BytesLexicographic(a[1..], b[1..]);
        SmallerBehind(a, b);
      } else {
        SmallerAhead(a, b);
      }
    } else {
      assert a == [] ==> (a < b <==> b != []);
    }
  }

  // ---------------------------------------------------------------- leaf against leaf

  lemma WrapDifference(x: int, y: int)
    requires -TWO_63 <= x < TWO_63 && -TWO_63 <= y < TWO_63
    ensures Wrap64(x - y) == if x - y >= TWO_63 then x - y - TWO_64
                             else if x - y < -TWO_63 then x - y + TWO_64 else x - y
  {
  }

  /** Two regular expressions compare the same both ways round unless they are one. */
  lemma RegexOppositeIff(p: string, q: string)
    ensures Compare(Regex(p), Regex(q)) == -Compare(Regex(q), Regex(p)) <==> p == q
    ensures p != q ==> {Compare(Regex(p), Regex(q)), Compare(Regex(q), Regex(p))} == {-1, 0}
  {
    BytesOpposite(p, q);
  }

  /** Dates compare in time order exactly when their distance fits 64 bits … */
  lemma DatesChronologicalIff(x: int, y: int)
    requires Fits(DateTime(x)) && Fits(DateTime(y))
    ensures Compare(DateTime(x), DateTime(y)) == Sign(x - y) <==> -TWO_63 <= x - y < TWO_63
  {
    WrapDifference(x, y);
    hide Wrap64;
  }

  /** … the two ways round give opposite signs exactly when they are not half a turn apart … */
  lemma DatesOppositeIff(x: int, y: int)
    requires Fits(DateTime(x)) && Fits(DateTime(y))
    ensures Compare(DateTime(x), DateTime(y)) == -Compare(DateTime(y), DateTime(x)) <==> !HalfTurn(x, y)
    ensures HalfTurn(x, y) ==> Compare(DateTime(x), DateTime(y)) == Compare(DateTime(y), DateTime(x)) == -1
  {
    WrapDifference(x, y);
    WrapDifference(y, x);
    hide Wrap64;
  }

  /** … and then three of them chain exactly when they do not chase each other. */
  lemma DatesChainIff(x: int, y: int, z: int)
    requires Fits(DateTime(x)) && Fits(DateTime(y)) && Fits(DateTime(z))
    requires !HalfTurn(x, y) && !HalfTurn(y, z) && !HalfTurn(x, z)
    ensures Chains(Compare(DateTime(x), DateTime(y)), Compare(DateTime(y), DateTime(z)), Compare(DateTime(x), DateTime(z)))
            <==> !Chase(x, y, z) && !Chase(y, z, x) && !Chase(z, x, y)
  {
    WrapDifference(x, y);
    WrapDifference(y, z);
    WrapDifference(x, z);
    hide Wrap64;
  }

  /** Numbers always give opposite signs, and three of them chain exactly when a NaN among them does
      not stand between, before or after two that are out of step. */
  lemma NumbersChainIff(a: Value, b: Value, c: Value)
    requires IsNumeric(a) && IsNumeric(b) && IsNumeric(c)
    ensures Compare(a, b) == -Compare(b, a)
    ensures Chains(Compare(a, b), Compare(b, c), Compare(a, c)) <==>
              && (!IsNumber(b) ==> Compare(a, c) == 0)
              && (!IsNumber(a) ==> Compare(b, c) >= 0)
              && (!IsNumber(c) ==> Compare(a, b) >= 0)
  {
    NotNaN(a);
    NotNaN(b);
    NotNaN(c);
    DoublesChainIff(AsDouble(a), AsDouble(b), AsDouble(c));
    hide AsDouble, CompareDoubles, Chains;
  }

  lemma DoublesChainIff(a: Double, b: Double, c: Double)
    ensures CompareDoubles(a, b) == -CompareDoubles(b, a)
    ensures Chains(CompareDoubles(a, b), CompareDoubles(b, c), CompareDoubles(a, c)) <==>
              && (b.NotANumber? ==> CompareDoubles(a, c) == 0)
              && (a.NotANumber? ==> CompareDoubles(b, c) >= 0)
              && (c.NotANumber? ==> CompareDoubles(a, b) >= 0)
  {
  }

  lemma NotNaN(v: Value)
    requires IsNumeric(v)
    ensures AsDouble(v).NotANumber? <==> !IsNumber(v)
  {
  }

  lemma ScalarsOpposite(a: Value, b: Value)
    requires TypeRank(a) == TypeRank(b) && !HasFields(a) && !a.Regex? && !a.DateTime?
    ensures Compare(a, b) == -Compare(b, a)
  {
    if a.Utf8? { BytesOpposite(a.text, b.text); }
    if a.Binary? || a.ObjectId? { BytesOpposite(a.data, b.data); }
    hide CompareBytes, AsDouble;
  }

  lemma LeavesOpposite(a: Value, b: Value, leaves: iset<Value>)
    requires Tame(leaves) && DatesFit(leaves) && a in leaves && b in leaves
    requires TypeRank(a) == TypeRank(b) && !HasFields(a)
    ensures Compare(a, b) == -Compare(b, a)
  {
    if a.Regex? {
      RegexOppositeIff(a.pattern, b.pattern);
    } else if a.DateTime? {
      DatesOppositeIff(a.millis, b.millis);
    } else {
      hide Compare;
      ScalarsOpposite(a, b);
    }
  }

  lemma LeavesChain(a: Value, b: Value, c: Value, leaves: iset<Value>)
    requires Tame(leaves) && DatesFit(leaves) && a in leaves && b in leaves && c in leaves
    requires TypeRank(a) == TypeRank(b) == TypeRank(c) && !HasFields(a)
    ensures Chains(Compare(a, b), Compare(b, c), Compare(a, c))
  {
    hide CompareBytes, AsDouble, DatesFit;
    if IsNumeric(a) {
      NumbersChainIff(a, b, c);
      NumbersInStep(a, b, leaves);
      NumbersInStep(b, c, leaves);
      NumbersInStep(a, c, leaves);
      hide Compare, Tame;
    } else if a.Utf8? {
      BytesChain(a.text, b.text, c.text);
    } else if a.Binary? || a.ObjectId? {
      BytesChain(a.data, b.data, c.data);
    } else if a.DateTime? {
      DatesFitIn(leaves, a);
      DatesFitIn(leaves, b);
      DatesFitIn(leaves, c);
      DatesChainIff(a.millis, b.millis, c.millis);
      hide Compare;
    } else if a.Regex? {
      assert a == b == c;
      RegexOppositeIff(a.pattern, a.pattern);
    }
  }

  lemma DatesFitIn(leaves: iset<Value>, v: Value)
    requires DatesFit(leaves) && v in leaves
    ensures Fits(v)
  {
  }

  lemma NumbersInStep(a: Value, b: Value, leaves: iset<Value>)
    requires TameNumbers(leaves) && a in leaves && b in leaves && IsNumeric(a) && IsNumeric(b)
    ensures Dbl(NotANumber) in leaves ==> Compare(a, b) == 0
  {
    NotNaN(a);
    NotNaN(b);
    hide AsDouble;
  }

  // ---------------------------------------------------------------- nested values

  lemma {:induction false} Opposite(a: Value, b: Value, leaves: iset<Value>)
    requires Tame(leaves) && DatesFit(leaves) && LeavesIn(a, leaves) && LeavesIn(b, leaves)
    ensures Compare(a, b) == -Compare(b, a)
    decreases a, |FieldsIn(a)| + 1
  {
    hide Tame, DatesFit;
    if TypeRank(a) == TypeRank(b) {
      if HasFields(a) {
        OppositeFrom(a, b, 0, leaves);
      } else {
        LeavesOpposite(a, b, leaves);
      }
    }
  }

  lemma {:induction false} OppositeFrom(a: Value, b: Value, i: nat, leaves: iset<Value>)
    requires HasFields(a) && TypeRank(a) == TypeRank(b) && i <= |a.fields| && i <= |b.fields|
    requires Tame(leaves) && DatesFit(leaves) && LeavesIn(a, leaves) && LeavesIn(b, leaves)
    ensures CompareFrom(a, b, i) == -CompareFrom(b, a, i)
    decreases a, |a.fields| - i
  {
    hide Tame, DatesFit;
    if i < |a.fields| && i < |b.fields| {
      var x, y := a.fields[i], b.fields[i];
      BytesOpposite(x.key, y.key);
      Opposite(x.value, y.value, leaves);
      OppositeFrom(a, b, i + 1, leaves);
      hide CompareBytes, Compare, LeavesIn;
    }
  }

  lemma {:induction false} Chain(a: Value, b: Value, c: Value, leaves: iset<Value>)
    requires Tame(leaves) && DatesFit(leaves)
    requires LeavesIn(a, leaves) && LeavesIn(b, leaves) && LeavesIn(c, leaves)
    ensures Chains(Compare(a, b), Compare(b, c), Compare(a, c))
    decreases a, |FieldsIn(a)| + 1
  {
    hide Tame, DatesFit;
    if TypeRank(a) == TypeRank(b) == TypeRank(c) {
      if HasFields(a) {
        ChainFrom(a, b, c, 0, leaves);
        hide CompareFrom;
      } else {
        LeavesChain(a, b, c, leaves);
        hide Compare;
      }
    } else {
      hide CompareFrom, CompareScalars;
    }
  }

  lemma InsideLeaves(v: Value, i: nat, leaves: iset<Value>)
    requires HasFields(v) && i < |v.fields| && LeavesIn(v, leaves)
    ensures LeavesIn(v.fields[i].value, leaves)
  {
  }

  lemma {:induction false} ChainFrom(a: Value, b: Value, c: Value, i: nat, leaves: iset<Value>)
    requires HasFields(a) && TypeRank(a) == TypeRank(b) == TypeRank(c)
    requires i <= |a.fields| && i <= |b.fields| && i <= |c.fields|
    requires Tame(leaves) && DatesFit(leaves)
    requires LeavesIn(a, leaves) && LeavesIn(b, leaves) && LeavesIn(c, leaves)
    ensures Chains(CompareFrom(a, b, i), CompareFrom(b, c, i), CompareFrom(a, c, i))
    decreases a, |a.fields| - i
  {
    hide Tame, DatesFit, CompareBytes, Compare, LeavesIn;
    if i < |a.fields| && i < |b.fields| && i < |c.fields| {
      var x, y, z := a.fields[i], b.fields[i], c.fields[i];
      InsideLeaves(a, i, leaves);
      InsideLeaves(b, i, leaves);
      InsideLeaves(c, i, leaves);
      BytesChain(x.key, y.key, z.key);
      BytesOpposite(x.key, y.key);
      BytesOpposite(y.key, z.key);
      BytesOpposite(x.key, z.key);
      Chain(x.value, y.value, z.value, leaves);
      ChainFrom(a, b, c, i + 1, leaves);
    }
  }

  /** The comparison is an order on the scalars among these leaves. */
  ghost predicate OrdersLeaves(leaves: iset<Value>) {
    && (forall a, b :: a in leaves && b in leaves && !HasFields(a) && !HasFields(b) ==> Compare(a, b) == -Compare(b, a))
    && (forall a, b, c :: a in leaves && b in leaves && c in leaves && !HasFields(a) && !HasFields(b) && !HasFields(c) ==>
          Chains(Compare(a, b), Compare(b, c), Compare(a, c)))
  }

  /** The comparison is an order on all values, however nested, built over these leaves. */
  ghost predicate OrdersValues(leaves: iset<Value>) {
    && (forall a, b :: LeavesIn(a, leaves) && LeavesIn(b, leaves) ==> Compare(a, b) == -Compare(b, a))
    && (forall a, b, c :: LeavesIn(a, leaves) && LeavesIn(b, leaves) && LeavesIn(c, leaves) ==>
          Chains(Compare(a, b), Compare(b, c), Compare(a, c)))
  }

  lemma OrderedPatterns(leaves: iset<Value>)
    requires OrdersLeaves(leaves)
    ensures TamePatterns(leaves)
  {
    hide Compare;
    forall p, q | Regex(p) in leaves && Regex(q) in leaves ensures p == q {
      RegexOppositeIff(p, q);
    }
  }

  lemma OrderedNumbers(leaves: iset<Value>)
    requires OrdersLeaves(leaves)
    ensures TameNumbers(leaves)
  {
    if Dbl(NotANumber) in leaves {
      forall x, y | x in leaves && y in leaves && IsNumber(x) && IsNumber(y)
        ensures AsDouble(x) == AsDouble(y)
      {
        NaNLevels(x, y);
        hide Compare;
        assert Chains(Compare(x, Dbl(NotANumber)), Compare(Dbl(NotANumber), y), Compare(x, y));
      }
    }
  }

  lemma NaNLevels(x: Value, y: Value)
    requires IsNumber(x) && IsNumber(y)
    ensures Compare(x, Dbl(NotANumber)) == 0 == Compare(Dbl(NotANumber), y)
    ensures Compare(x, y) == 0 <==> AsDouble(x) == AsDouble(y)
  {
    NotNaN(x);
    NotNaN(y);
    hide RoundToDouble;
  }

  lemma OrderedDates(leaves: iset<Value>)
    requires OrdersLeaves(leaves) && DatesFit(leaves)
    ensures TameDates(leaves)
  {
    hide Compare;
    forall x, y | DateTime(x) in leaves && DateTime(y) in leaves ensures !HalfTurn(x, y) {
      DatesOppositeIff(x, y);
    }
    forall x, y, z | DateTime(x) in leaves && DateTime(y) in leaves && DateTime(z) in leaves ensures !Chase(x, y, z) {
      DatesChainIff(x, y, z);
    }
  }

  /** compare_values is an order on a set of scalars exactly when the set is tame, and exactly then
      it is one on everything that can be nested from them. */
  lemma OrderExactly(leaves: iset<Value>)
    requires DatesFit(leaves)
    ensures OrdersLeaves(leaves) <==> Tame(leaves)
    ensures OrdersValues(leaves) <==> Tame(leaves)
  {
    if OrdersValues(leaves) {
      ScalarsAreValues(leaves);
    }
    if OrdersLeaves(leaves) {
      hide OrdersLeaves;
      OrderedPatterns(leaves);
      OrderedNumbers(leaves);
      OrderedDates(leaves);
    }
    if Tame(leaves) {
      hide Tame, DatesFit, Compare, Chains, LeavesIn;
      forall a, b | LeavesIn(a, leaves) && LeavesIn(b, leaves) ensures Compare(a, b) == -Compare(b, a) {
        Opposite(a, b, leaves);
      }
      forall a, b, c | LeavesIn(a, leaves) && LeavesIn(b, leaves) && LeavesIn(c, leaves)
        ensures Chains(Compare(a, b), Compare(b, c), Compare(a, c))
      {
        Chain(a, b, c, leaves);
      }
      ScalarsAreValues(leaves);
    }
  }

  lemma ScalarsAreValues(leaves: iset<Value>)
    requires OrdersValues(leaves)
    ensures OrdersLeaves(leaves)
  {
    hide Compare, Chains;
    assert forall v :: v in leaves && !HasFields(v) ==> LeavesIn(v, leaves);
  }

  /** The dates of a set all compare in time order exactly when any two are less than 2^63 apart, and
      then they are tame. */
  lemma ChronologicalExactly(leaves: iset<Value>)
    requires DatesFit(leaves)
    ensures (forall x, y :: DateTime(x) in leaves && DateTime(y) in leaves ==>
               Compare(DateTime(x), DateTime(y)) == Sign(x - y))
            <==> (forall x, y :: DateTime(x) in leaves && DateTime(y) in leaves ==> x - y < TWO_63)
    ensures (forall x, y :: DateTime(x) in leaves && DateTime(y) in leaves ==> x - y < TWO_63) ==> TameDates(leaves)
  {
    hide Compare;
    forall x, y | DateTime(x) in leaves && DateTime(y) in leaves
      ensures Compare(DateTime(x), DateTime(y)) == Sign(x - y) <==> -TWO_63 <= x - y < TWO_63
    {
      DatesChronologicalIff(x, y);
    }
  }

  // ---------------------------------------------------------------- one pair of nested values

  /** The first leaves at the same place of both values that are not level both ways round; none if
      kinds, names or lengths decide first, or nothing does. */
  function Deciding(a: Value, b: Value): Option<(Value, Value)>
    decreases a, |FieldsIn(a)| + 1
  {
    if TypeRank(a) != TypeRank(b) then None
    else if HasFields(a) then DecidingFrom(a, b, 0)
    else if Compare(a, b) == 0 == Compare(b, a) then None
    else Some((a, b))
  }

  function DecidingFrom(a: Value, b: Value, i: nat): Option<(Value, Value)>
    requires HasFields(a) && TypeRank(a) == TypeRank(b) && i <= |a.fields| && i <= |b.fields|
    decreases a, |a.fields| - i
  {
    if i == |a.fields| || i == |b.fields| || (a.Document? && a.fields[i].key != b.fields[i].key) then None
    else
      var x, y := a.fields[i].value, b.fields[i].value;
      if Compare(x, y) == 0 == Compare(y, x) then DecidingFrom(a, b, i + 1) else Deciding(x, y)
  }

  /** The deciding leaves are scalars of one kind; each way round in which they differ decides for the
      whole, and without such leaves the two ways round are opposite. */
  ghost predicate Decides(leaf: Option<(Value, Value)>, ab: int, ba: int) {
    if leaf.None? then ab == -ba
    else
      var p, q := leaf.value.0, leaf.value.1;
      && TypeRank(p) == TypeRank(q) && !HasFields(p) && (Compare(p, q) != 0 || Compare(q, p) != 0)
      && (Compare(p, q) != 0 ==> ab == Compare(p, q))
      && (Compare(q, p) != 0 ==> ba == Compare(q, p))
  }

  lemma {:induction false} DecidingDecides(a: Value, b: Value)
    ensures Decides(Deciding(a, b), Compare(a, b), Compare(b, a))
    decreases a, |FieldsIn(a)| + 1
  {
    hide CompareScalars;
    if TypeRank(a) == TypeRank(b) && HasFields(a) {
      DecidingFromDecides(a, b, 0);
      hide Decides, CompareFrom, DecidingFrom;
    }
  }

  lemma {:induction false} DecidingFromDecides(a: Value, b: Value, i: nat)
    requires HasFields(a) && TypeRank(a) == TypeRank(b) && i <= |a.fields| && i <= |b.fields|
    ensures Decides(DecidingFrom(a, b, i), CompareFrom(a, b, i), CompareFrom(b, a, i))
    decreases a, |a.fields| - i
  {
    if i < |a.fields| && i < |b.fields| {
      var x, y := a.fields[i], b.fields[i];
      BytesOpposite(x.key, y.key);
      if !(a.Document? && x.key != y.key) {
        DecidingDecides(x.value, y.value);
        DecidingFromDecides(a, b, i + 1);
      }
      hide CompareBytes, Compare, Deciding;
    }
  }

  /** What settles the comparison of a with b: the first leaves that are not level that way round, or
      the names, lengths or kinds that differ before any such leaves. */
  datatype Settled = Nothing | Leaves(p: Value, q: Value) | Names(k: string, l: string) | Sizes(m: nat, n: nat)

  function Settling(a: Value, b: Value): Settled
    decreases a, |FieldsIn(a)| + 1
  {
    if TypeRank(a) != TypeRank(b) then Sizes(TypeRank(a), TypeRank(b))
    else if HasFields(a) then SettlingFrom(a, b, 0)
    else if CompareScalars(a, b) == 0 then Nothing
    else Leaves(a, b)
  }

  function SettlingFrom(a: Value, b: Value, i: nat): Settled
    requires HasFields(a) && TypeRank(a) == TypeRank(b) && i <= |a.fields| && i <= |b.fields|
    decreases a, |a.fields| - i
  {
    if i == |a.fields| || i == |b.fields| then
      (if |a.fields| == |b.fields| then Nothing else Sizes(|a.fields|, |b.fields|))
    else if a.Document? && a.fields[i].key != b.fields[i].key then Names(a.fields[i].key, b.fields[i].key)
    else
      var here := Settling(a.fields[i].value, b.fields[i].value);
      if here.Nothing? then SettlingFrom(a, b, i + 1) else here
  }

  /** Which way it settles it. */
  function Side(s: Settled): int {
    match s
    case Nothing => 0
    case Leaves(p, q) => if !HasFields(p) && TypeRank(p) == TypeRank(q) then CompareScalars(p, q) else 0
    case Names(k, l) => CompareBytes(k, l)
    case Sizes(m, n) => Sign(m - n)
  }

  predicate Settles(s: Settled, diff: int) {
    Side(s) == diff && (s.Nothing? <==> diff == 0)
  }

  /** The comparison is the side of what settles it, and only nothing settles nothing. */
  lemma {:induction false} SettlingSettles(a: Value, b: Value)
    ensures Settles(Settling(a, b), Compare(a, b))
    decreases a, |FieldsIn(a)| + 1
  {
    hide CompareScalars, CompareFrom, SettlingFrom;
    if TypeRank(a) == TypeRank(b) && HasFields(a) {
      SettlingFromSettles(a, b, 0);
      hide Settles;
    }
  }

  lemma {:induction false} SettlingFromSettles(a: Value, b: Value, i: nat)
    requires HasFields(a) && TypeRank(a) == TypeRank(b) && i <= |a.fields| && i <= |b.fields|
    ensures Settles(SettlingFrom(a, b, i), CompareFrom(a, b, i))
    decreases a, |a.fields| - i
  {
    if i < |a.fields| && i < |b.fields| {
      var x, y := a.fields[i], b.fields[i];
      BytesOpposite(x.key, y.key);
      if !(a.Document? && x.key != y.key) {
        SettlingSettles(x.value, y.value);
        SettlingFromSettles(a, b, i + 1);
      }
      hide CompareBytes, Compare, Settling, CompareScalars;
    }
  }

  /** Two values, however nested, compare oppositely the two ways round exactly when their deciding
      leaves are not dates half a turn apart and, if they are two patterns, the way round that finds
      those level is settled further on, by leaves, names or lengths, in favour of the same value. */
  lemma OppositeExactly(a: Value, b: Value)
    requires LeavesIn(a, iset v: Value | Fits(v)) && LeavesIn(b, iset v: Value | Fits(v))
    ensures Compare(a, b) == -Compare(b, a) <==>
              (Deciding(a, b).Some? ==>
                 BothWays(Deciding(a, b).value.0, Deciding(a, b).value.1, Settling(a, b), Settling(b, a)))
  {
    hide Deciding, DecidingFrom, LeavesIn, Compare, CompareScalars, CompareBytes, Settling, Side, HalfTurn, Fits;
    DecidingDecides(a, b);
    SettlingSettles(a, b);
    SettlingSettles(b, a);
    if Deciding(a, b).Some? {
      DecidingFits(a, b);
      LeafOpposite(Deciding(a, b).value.0, Deciding(a, b).value.1);
    }
  }

  predicate BothWays(p: Value, q: Value, forth: Settled, back: Settled) {
    && (p.DateTime? && q.DateTime? ==> !HalfTurn(p.millis, q.millis))
    && (p.Regex? && q.Regex? ==> Side(if CompareBytes(p.pattern, q.pattern) < 0 then back else forth) == 1)
  }

  /** What opposite signs ask of two leaves that differ in one way round at least. */
  lemma LeafOpposite(p: Value, q: Value)
    requires TypeRank(p) == TypeRank(q) && !HasFields(p) && Fits(p) && Fits(q)
    requires Compare(p, q) != 0 || Compare(q, p) != 0
    ensures !p.Regex? ==> (Compare(p, q) == -Compare(q, p) <==> !(p.DateTime? && HalfTurn(p.millis, q.millis)))
    ensures !p.Regex? ==> Compare(p, q) != 0 && Compare(q, p) != 0
    ensures p.Regex? ==> if CompareBytes(p.pattern, q.pattern) < 0 then Compare(p, q) == -1 && Compare(q, p) == 0
                         else Compare(p, q) == 0 && Compare(q, p) == -1
  {
    if p.Regex? {
      BytesOpposite(p.pattern, q.pattern);
    } else if p.DateTime? {
      DatesOppositeIff(p.millis, q.millis);
      hide Compare, HalfTurn;
    } else {
      ScalarsOpposite(p, q);
      hide Compare;
    }
  }

  lemma {:induction false} DecidingFits(a: Value, b: Value)
    requires LeavesIn(a, iset v: Value | Fits(v)) && LeavesIn(b, iset v: Value | Fits(v))
    requires Deciding(a, b).Some?
    ensures Fits(Deciding(a, b).value.0) && Fits(Deciding(a, b).value.1)
    decreases a, |FieldsIn(a)| + 1
  {
    hide Compare;
    if HasFields(a) { DecidingFromFits(a, b, 0); }
  }

  lemma {:induction false} DecidingFromFits(a: Value, b: Value, i: nat)
    requires HasFields(a) && TypeRank(a) == TypeRank(b) && i <= |a.fields| && i <= |b.fields|
    requires LeavesIn(a, iset v: Value | Fits(v)) && LeavesIn(b, iset v: Value | Fits(v))
    requires DecidingFrom(a, b, i).Some?
    ensures Fits(DecidingFrom(a, b, i).value.0) && Fits(DecidingFrom(a, b, i).value.1)
    decreases a, |a.fields| - i
  {
    hide Compare;
    var x, y := a.fields[i].value, b.fields[i].value;
    if Compare(x, y) == 0 == Compare(y, x) {
      DecidingFromFits(a, b, i + 1);
    } else {
      DecidingFits(x, y);
    }
  }

  lemma {:induction false} Reflexive(a: Value)
    ensures Compare(a, a) == 0
    decreases a, |FieldsIn(a)| + 1
  {
    if HasFields(a) {
      ReflexiveFrom(a, 0);
    } else {
      assert a.Utf8? ==> CompareBytes(a.text, a.text) == 0 by { if a.Utf8? { BytesOpposite(a.text, a.text); } }
      if a.Binary? || a.ObjectId? { BytesOpposite(a.data, a.data); }
      if a.Regex? { BytesOpposite(a.pattern, a.pattern); }
    }
  }

  lemma {:induction false} ReflexiveFrom(a: Value, i: nat)
    requires HasFields(a) && i <= |a.fields|
    ensures CompareFrom(a, a, i) == 0
    decreases a, |a.fields| - i
  {
    if i < |a.fields| {
      Reflexive(a.fields[i].value);
      ReflexiveFrom(a, i + 1);
    }
  }

  /** A NaN is level with 1 and with 2, which are not level with each other. */
  lemma NaNBreaksOrder()
    ensures Compare(Int32(1), Dbl(NotANumber)) == 0 == Compare(Dbl(NotANumber), Int32(2))
    ensures Compare(Int32(1), Int32(2)) == -1
  {
  }

  /** A regular expression is before a later one, and level with it the other way round. */
  lemma RegexBreaksOrder()
    ensures Compare(Regex("a"), Regex("b")) == -1 && Compare(Regex("b"), Regex("a")) == 0
  {
  }

  /** Dates further apart than 63 bits wrap round: each of these three is before the next. */
  lemma DatesBreakOrder()
    ensures var a, b, c := DateTime(-TWO_63), DateTime(-1), DateTime(TWO_63 - 2);
            Compare(a, b) == Compare(b, c) == Compare(c, a) == -1
  {
  }

  // ---------------------------------------------------------------- what a comparison says

  datatype Family = Lowest | Nulls | Numbers | Text | Objects | Lists | Bytes | Ids | Booleans | Dates
                  | Stamps | Patterns | Highest

  /** The families of values, lowest first. */
  const FAMILIES: seq<Family> := [Lowest, Nulls, Numbers, Text, Objects, Lists, Bytes, Ids, Booleans, Dates,
                                  Stamps, Patterns, Highest]

  function FamilyOf(v: Value): Family {
    match v
    case MinKey => Lowest
    case Null => Nulls
    case Int32(_) => Numbers
    case Int64(_) => Numbers
    case Dbl(_) => Numbers
    case Utf8(_) => Text
    case Document(_) => Objects
    case Array(_) => Lists
    case Binary(_) => Bytes
    case ObjectId(_) => Ids
    case Bool(_) => Booleans
    case DateTime(_) => Dates
    case Timestamp(_, _) => Stamps
    case Regex(_) => Patterns
    case MaxKey => Highest
  }

  /** Values of different families compare as the families do. */
  lemma FamiliesInOrder(a: Value, b: Value, i: nat, j: nat)
    requires i < |FAMILIES| && j < |FAMILIES| && FamilyOf(a) == FAMILIES[i] && FamilyOf(b) == FAMILIES[j]
    ensures i < j ==> Compare(a, b) == -1
    ensures i > j ==> Compare(a, b) == 1
  {
    hide CompareFrom, CompareScalars;
    FamilyRank(a, i);
    FamilyRank(b, j);
    hide TypeRank;
  }

  lemma FamilyRank(v: Value, i: nat)
    requires i < |FAMILIES| && FamilyOf(v) == FAMILIES[i]
    ensures TypeRank(v) == i
  {
  }

  /** Within a family: numbers by size, texts and bytes by dictionary, false before true, stamps by
      second and then counter, and the rest level. */
  lemma WithinFamily(a: Value, b: Value)
    requires FamilyOf(a) == FamilyOf(b)
    ensures IsNumeric(a) ==> (Compare(a, b) < 0 <==> DoubleLess(AsDouble(a), AsDouble(b)))
                             && (Compare(a, b) > 0 <==> DoubleLess(AsDouble(b), AsDouble(a)))
    ensures a.Utf8? ==> (Compare(a, b) < 0 <==> a.text < b.text || SmallerFirst(a.text, b.text))
    ensures a.Binary? || a.ObjectId? ==> (Compare(a, b) < 0 <==> a.data < b.data || SmallerFirst(a.data, b.data))
    ensures a.Bool? ==> (Compare(a, b) < 0 <==> !a.b && b.b) && (Compare(a, b) > 0 <==> a.b && !b.b)
    ensures a.Timestamp? ==> (Compare(a, b) < 0 <==> a.t < b.t || (a.t == b.t && a.i < b.i))
                             && (Compare(a, b) > 0 <==> b.t < a.t || (a.t == b.t && b.i < a.i))
    ensures a.Regex? ==> (Compare(a, b) < 0 <==> a.pattern < b.pattern || SmallerFirst(a.pattern, b.pattern))
                         && Compare(a, b) <= 0
    ensures a.Null? || a.MinKey? || a.MaxKey? ==> Compare(a, b) == 0
  {
    hide CompareFrom, SmallerFirst;
    if a.Utf8? { BytesLexicographic(a.text, b.text); }
    if a.Binary? || a.ObjectId? { BytesLexicographic(a.data, b.data); }
    if a.Regex? { BytesLexicographic(a.pattern, b.pattern); }
    hide CompareBytes;
  }

  /** Equality and order agree: two scalars are equal exactly when they are of one family and level,
      a NaN and a regular expression being equal to nothing; documents and arrays only when identical. */
  lemma EqualIsLevel(a: Value, b: Value)
    requires Fits(a) && Fits(b)
    ensures !HasFields(a) ==>
      (ValueEqual(a, b) <==> FamilyOf(a) == FamilyOf(b) && Compare(a, b) == 0
                             && a != Dbl(NotANumber) && b != Dbl(NotANumber) && !a.Regex?)
    ensures HasFields(a) ==> (ValueEqual(a, b) <==> a == b)
  {
    hide CompareFrom, CompareScalars, FamilyOf, TypeRank;
    FamiliesSplit(a, b);
    if IsNumeric(a) && IsNumeric(b) {
      EqualNumbers(a, b);
    } else if !HasFields(a) && FamilyOf(a) == FamilyOf(b) {
      EqualOthers(a, b);
    }
  }

  lemma FamiliesSplit(a: Value, b: Value)
    ensures FamilyOf(a) == FamilyOf(b) <==> TypeRank(a) == TypeRank(b)
    ensures IsNumeric(a) ==> (IsNumeric(b) <==> FamilyOf(a) == FamilyOf(b))
    ensures FamilyOf(a) != FamilyOf(b) ==> a != b && !(IsNumeric(a) && IsNumeric(b))
  {
  }

  lemma EqualNumbers(a: Value, b: Value)
    requires IsNumeric(a) && IsNumeric(b)
    ensures ValueEqual(a, b) <==> Compare(a, b) == 0 && a != Dbl(NotANumber) && b != Dbl(NotANumber)
  {
    hide CompareFrom, RoundToDouble;
  }

  lemma EqualOthers(a: Value, b: Value)
    requires FamilyOf(a) == FamilyOf(b) && !HasFields(a) && !IsNumeric(a) && Fits(a) && Fits(b)
    ensures ValueEqual(a, b) <==> Compare(a, b) == 0 && !a.Regex?
  {
    hide CompareFrom, CompareBytes, Wrap64;
    if a.Utf8? { BytesOpposite(a.text, b.text); }
    if a.Binary? || a.ObjectId? { BytesOpposite(a.data, b.data); }
    if a.DateTime? { WrapDifference(a.millis, b.millis); }
  }

  /** Documents and arrays, by the first place they differ in: in a document a differing name decides
      by dictionary, otherwise the values there do; with no such place the shorter one is first. */
  lemma WithinContainers(a: Value, b: Value, i: nat)
    requires HasFields(a) && FamilyOf(a) == FamilyOf(b) && i <= |a.fields| && i <= |b.fields|
    requires forall j :: 0 <= j < i ==> LevelFields(a, b, j)
    ensures i == |a.fields| || i == |b.fields| ==> Compare(a, b) == Sign(|a.fields| - |b.fields|)
    ensures i < |a.fields| && i < |b.fields| && a.Document? && a.fields[i].key != b.fields[i].key ==>
              Compare(a, b) == CompareBytes(a.fields[i].key, b.fields[i].key)
    ensures i < |a.fields| && i < |b.fields| && (a.Document? ==> a.fields[i].key == b.fields[i].key)
            && Compare(a.fields[i].value, b.fields[i].value) != 0 ==>
              Compare(a, b) == Compare(a.fields[i].value, b.fields[i].value)
  {
    PastLevel(a, b, 0, i);
  }

  ghost predicate LevelFields(a: Value, b: Value, j: nat)
    requires HasFields(a) && HasFields(b) && j < |a.fields| && j < |b.fields|
  {
    (a.Document? ==> a.fields[j].key == b.fields[j].key) && Compare(a.fields[j].value, b.fields[j].value) == 0
  }

  lemma {:induction false} PastLevel(a: Value, b: Value, k: nat, i: nat)
    requires HasFields(a) && FamilyOf(a) == FamilyOf(b) && k <= i <= |a.fields| && i <= |b.fields|
    requires forall j :: k <= j < i ==> LevelFields(a, b, j)
    ensures CompareFrom(a, b, k) == CompareFrom(a, b, i)
    decreases i - k
  {
    hide Compare;
    if k < i {
      assert LevelFields(a, b, k);
      PastLevel(a, b, k + 1, i);
    }
  }

  // ---------------------------------------------------------------- sort keys

  type Doc = seq<Field>

  datatype Key = Key(path: Path, ascending: bool)

  datatype Refusal = BadValue | FailedToParse

  datatype Result<+T> = Ok(value: T) | Err(refusal: Refusal)

  function Direction(v: Value): Double {
    if IsNumeric(v) then AsDouble(v) else Finite(0.0)
  }

  function ParseKey(f: Field): Result<Key> {
    if Direction(f.value) != Finite(1.0) && Direction(f.value) != Finite(-1.0) then Err(BadValue)
    else
      match SplitPath(f.key)
      case None => Err(FailedToParse)
      case Some(path) => Ok(Key(path, Direction(f.value) == Finite(1.0)))
  }

  function ParseKeys(spec: seq<Field>, so: seq<Key>): Result<seq<Key>>
    decreases |spec|
  {
    if spec == [] then Ok(so)
    else
      match ParseKey(spec[0])
      case Err(e) => Err(e)
      case Ok(key) => ParseKeys(spec[1..], so + [key])
  }

  /** A missing field sorts where an explicit null would. */
  function At(doc: Doc, path: Path): Value {
    Get(doc, path).GetOr(Null)
  }

  /** The first key the documents differ in decides; a descending key turns its sign round. */
  function CompareBy(keys: seq<Key>, a: Doc, b: Doc): int {
    if keys == [] then 0
    else
      var diff := Compare(At(a, keys[0].path), At(b, keys[0].path));
      if diff != 0 then (if keys[0].ascending then diff else -diff) else CompareBy(keys[1..], a, b)
  }

  /** What a document has under each key is built over that key's leaves. */
  ghost predicate Sortable(keys: seq<Key>, leaves: seq<iset<Value>>, doc: Doc)
    requires |leaves| == |keys|
  {
    forall k :: 0 <= k < |keys| ==> LeavesIn(At(doc, keys[k].path), leaves[k])
  }

  ghost predicate AllTame(leaves: seq<iset<Value>>) {
    forall k :: 0 <= k < |leaves| ==> Tame(leaves[k]) && DatesFit(leaves[k])
  }

  lemma {:induction false} ByOpposite(keys: seq<Key>, leaves: seq<iset<Value>>, a: Doc, b: Doc)
    requires |leaves| == |keys| && AllTame(leaves) && Sortable(keys, leaves, a) && Sortable(keys, leaves, b)
    ensures CompareBy(keys, a, b) == -CompareBy(keys, b, a)
    decreases |keys|
  {
    hide Compare, At, LeavesIn, Tame, DatesFit;
    if keys != [] {
      Opposite(At(a, keys[0].path), At(b, keys[0].path), leaves[0]);
      ByOpposite(keys[1..], leaves[1..], a, b);
    }
  }

  lemma {:induction false} ByChain(keys: seq<Key>, leaves: seq<iset<Value>>, a: Doc, b: Doc, c: Doc)
    requires |leaves| == |keys| && AllTame(leaves)
    requires Sortable(keys, leaves, a) && Sortable(keys, leaves, b) && Sortable(keys, leaves, c)
    ensures Chains(CompareBy(keys, a, b), CompareBy(keys, b, c), CompareBy(keys, a, c))
    decreases |keys|
  {
    hide Compare, At, LeavesIn, Tame, DatesFit;
    if keys != [] {
      var x, y, z := At(a, keys[0].path), At(b, keys[0].path), At(c, keys[0].path);
      Chain(x, y, z, leaves[0]);
      Chain(z, y, x, leaves[0]);
      Opposite(x, y, leaves[0]);
      Opposite(y, z, leaves[0]);
      Opposite(x, z, leaves[0]);
      ByChain(keys[1..], leaves[1..], a, b, c);
    }
  }

  lemma {:induction false} ByReflexive(keys: seq<Key>, a: Doc)
    ensures CompareBy(keys, a, a) == 0
  {
    if keys != [] {
      Reflexive(At(a, keys[0].path));
      ByReflexive(keys[1..], a);
      hide Compare, At;
    }
  }

  // ---------------------------------------------------------------- the stable sort

  /** The predicate handed to the sort. */
  predicate Precedes(keys: seq<Key>, a: Doc, b: Doc) {
    CompareBy(keys, a, b) < 0
  }

  predicate Tied(keys: seq<Key>, a: Doc, b: Doc) {
    !Precedes(keys, a, b) && !Precedes(keys, b, a)
  }

  /** x goes after everything that is not strictly behind it. */
  function Insert(keys: seq<Key>, s: seq<Doc>, x: Doc): seq<Doc> {
    if s == [] then [x]
    else
      var last := s[|s| - 1];
      if Precedes(keys, x, last) then Insert(keys, s[..|s| - 1], x) + [last] else s + [x]
  }

  function StableSort(keys: seq<Key>, s: seq<Doc>): seq<Doc> {
    if s == [] then [] else Insert(keys, StableSort(keys, s[..|s| - 1]), s[|s| - 1])
  }

  lemma {:induction false} SortPermutes(keys: seq<Key>, s: seq<Doc>)
    ensures multiset(StableSort(keys, s)) == multiset(s)
    ensures |StableSort(keys, s)| == |s|
  {
    hide Insert;
    if s != [] {
      SortPermutes(keys, s[..|s| - 1]);
      InsertAdds(keys, StableSort(keys, s[..|s| - 1]), s[|s| - 1]);
      assert s == s[..|s| - 1] + [s[|s| - 1]];
    }
  }

  lemma {:induction false} InsertAdds(keys: seq<Key>, s: seq<Doc>, x: Doc)
    ensures |Insert(keys, s, x)| == |s| + 1
    ensures multiset(Insert(keys, s, x)) == multiset(s) + multiset{x}
  {
    hide CompareBy;
    if s != [] {
      var front, last := s[..|s| - 1], s[|s| - 1];
      InsertAdds(keys, front, x);
      assert multiset(s) == multiset(front) + multiset{last} by { assert s == front + [last]; }
      var r := Insert(keys, front, x);
      assert multiset(r + [last]) == multiset(r) + multiset{last};
      assert multiset(s + [x]) == multiset(s) + multiset{x};
    }
  }

  lemma {:induction false} InsertMembers(keys: seq<Key>, s: seq<Doc>, x: Doc, y: Doc)
    ensures y in Insert(keys, s, x) ==> y == x || y in s
  {
    hide CompareBy;
    if s != [] { InsertMembers(keys, s[..|s| - 1], x, y); }
  }

  /** What std::stable_sort asks of that predicate on the documents it is given: a strict weak order. */
  ghost predicate WeaklyOrdered(keys: seq<Key>, documents: set<Doc>) {
    && (forall a, b :: a in documents && b in documents ==> !(Precedes(keys, a, b) && Precedes(keys, b, a)))
    && (forall a, b, c :: a in documents && b in documents && c in documents ==>
          (Precedes(keys, a, c) ==> Precedes(keys, a, b) || Precedes(keys, b, c)))
  }

  /** Documents whose keys are read from tame leaves meet it. */
  lemma TameIsWeaklyOrdered(keys: seq<Key>, leaves: seq<iset<Value>>, documents: set<Doc>)
    requires |leaves| == |keys| && AllTame(leaves) && forall d :: d in documents ==> Sortable(keys, leaves, d)
    ensures WeaklyOrdered(keys, documents)
  {
    hide CompareBy, Sortable, AllTame;
    forall a, b | a in documents && b in documents ensures !(Precedes(keys, a, b) && Precedes(keys, b, a)) {
      ByOpposite(keys, leaves, a, b);
    }
    forall a, b, c | a in documents && b in documents && c in documents && Precedes(keys, a, c)
      ensures Precedes(keys, a, b) || Precedes(keys, b, c)
    {
      ByOpposite(keys, leaves, a, b);
      ByOpposite(keys, leaves, b, c);
      ByOpposite(keys, leaves, a, c);
      ByChain(keys, leaves, c, b, a);
    }
  }

  // What a single key asks of the scalars found under it.

  /** One key's predicate on two values. */
  predicate Ahead(ascending: bool, x: Value, y: Value) {
    if ascending then Compare(x, y) < 0 else Compare(x, y) > 0
  }

  ghost predicate WeakOrder(ascending: bool, values: iset<Value>) {
    && (forall x, y :: x in values && y in values ==> !(Ahead(ascending, x, y) && Ahead(ascending, y, x)))
    && (forall x, y, z :: x in values && y in values && z in values ==>
          (Ahead(ascending, x, z) ==> Ahead(ascending, x, y) || Ahead(ascending, y, z)))
  }

  ghost predicate Scalars(values: iset<Value>) {
    forall v :: v in values ==> !HasFields(v)
  }

  /** Dates half a turn apart are level in a descending key, so they must not have a third beside them. */
  ghost predicate TameDescending(values: iset<Value>) {
    && (forall x, y, z :: DateTime(x) in values && DateTime(y) in values && DateTime(z) in values ==> !Chase(x, y, z))
    && (forall x, y, z :: DateTime(x) in values && DateTime(y) in values && DateTime(z) in values ==>
          (HalfTurn(x, y) ==> z == x || z == y))
  }

  /** Any patterns will do; numbers as before; dates by the key's direction. */
  ghost predicate TameFor(ascending: bool, values: iset<Value>) {
    TameNumbers(values) && if ascending then TameDates(values) else TameDescending(values)
  }

  /** The law of three values on the sides their comparisons take. */
  predicate Carries(xy: bool, yz: bool, xz: bool) {
    xz ==> xy || yz
  }

  lemma WeakNumbers(ascending: bool, values: iset<Value>)
    requires WeakOrder(ascending, values)
    ensures TameNumbers(values)
  {
    if Dbl(NotANumber) in values {
      forall x, y | x in values && y in values && IsNumber(x) && IsNumber(y)
        ensures AsDouble(x) == AsDouble(y)
      {
        NaNLevels(x, y);
        NaNLevels(y, x);
        NumbersChainIff(x, y, y);
        hide Compare, AsDouble;
        assert Carries(Ahead(ascending, x, Dbl(NotANumber)), Ahead(ascending, Dbl(NotANumber), y), Ahead(ascending, x, y));
        assert Carries(Ahead(ascending, y, Dbl(NotANumber)), Ahead(ascending, Dbl(NotANumber), x), Ahead(ascending, y, x));
      }
    }
  }

  /** The law of three, for dates in one key. */
  predicate DatesCarry(ascending: bool, x: int, y: int, z: int) {
    Carries(Ahead(ascending, DateTime(x), DateTime(y)), Ahead(ascending, DateTime(y), DateTime(z)),
            Ahead(ascending, DateTime(x), DateTime(z)))
  }

  /** Three dates in an ascending key … */
  lemma DatesCarryUp(x: int, y: int, z: int)
    requires Fits(DateTime(x)) && Fits(DateTime(y)) && Fits(DateTime(z))
    requires !HalfTurn(x, y) && !HalfTurn(y, z) && !HalfTurn(x, z)
    ensures DatesCarry(true, x, y, z) <==> !Chase(z, y, x) && !Chase(y, x, z) && !Chase(x, z, y)
  {
    WrapDifference(x, y);
    WrapDifference(y, z);
    WrapDifference(x, z);
    hide Wrap64;
  }

  /** … and in a descending one. */
  lemma DatesCarryDown(x: int, y: int, z: int)
    requires Fits(DateTime(x)) && Fits(DateTime(y)) && Fits(DateTime(z))
    requires !HalfTurn(x, y) && !HalfTurn(y, z) && !HalfTurn(x, z)
    ensures DatesCarry(false, x, y, z) <==> !Chase(x, y, z) && !Chase(y, z, x) && !Chase(z, x, y)
  {
    WrapDifference(x, y);
    WrapDifference(y, z);
    WrapDifference(x, z);
    hide Wrap64;
  }

  /** In a descending key two dates half a turn apart are level, and any third is not level with both. */
  lemma HalfTurnCrowded(x: int, y: int, z: int)
    requires Fits(DateTime(x)) && Fits(DateTime(y)) && Fits(DateTime(z))
    requires HalfTurn(x, y) && z != x && z != y
    ensures !DatesCarry(false, x, y, z) || !DatesCarry(false, y, x, z)
  {
    WrapDifference(x, y);
    WrapDifference(y, x);
    WrapDifference(y, z);
    WrapDifference(x, z);
    hide Wrap64;
  }

  lemma WeakDates(ascending: bool, values: iset<Value>)
    requires WeakOrder(ascending, values) && DatesFit(values)
    ensures if ascending then TameDates(values) else TameDescending(values)
  {
    hide Compare;
    forall x, y, z | DateTime(x) in values && DateTime(y) in values && DateTime(z) in values
      ensures !Chase(x, y, z)
      ensures HalfTurn(x, y) ==> !ascending && (z == x || z == y)
    {
      if Chase(x, y, z) { DatesCarryDown(x, y, z); DatesCarryUp(z, y, x); }
      DatesOppositeIff(x, y);
      if HalfTurn(x, y) && z != x && z != y { HalfTurnCrowded(x, y, z); }
    }
  }

  lemma AheadOneWay(ascending: bool, x: Value, y: Value)
    requires !HasFields(x) && !HasFields(y) && Fits(x) && Fits(y)
    requires x.DateTime? && y.DateTime? && ascending ==> !HalfTurn(x.millis, y.millis)
    ensures !(Ahead(ascending, x, y) && Ahead(ascending, y, x))
  {
    if TypeRank(x) == TypeRank(y) {
      if x.Regex? {
        BytesOpposite(x.pattern, y.pattern);
      } else if x.DateTime? {
        DatesOppositeIff(x.millis, y.millis);
        hide Compare;
      } else {
        ScalarsOpposite(x, y);
        hide Compare;
      }
    }
  }

  lemma PatternsCarry(ascending: bool, x: Value, y: Value, z: Value)
    requires x.Regex? && y.Regex? && z.Regex?
    ensures Carries(Ahead(ascending, x, y), Ahead(ascending, y, z), Ahead(ascending, x, z))
  {
    BytesOpposite(x.pattern, y.pattern);
    BytesOpposite(y.pattern, z.pattern);
    BytesOpposite(x.pattern, z.pattern);
    BytesChain(z.pattern, y.pattern, x.pattern);
    hide CompareBytes;
  }

  /** Scalars of one kind whose order no value upsets. */
  lemma OthersCarry(ascending: bool, x: Value, y: Value, z: Value)
    requires TypeRank(x) == TypeRank(y) == TypeRank(z) && !HasFields(x)
    requires !IsNumeric(x) && !x.DateTime? && !x.Regex?
    ensures Carries(Ahead(ascending, x, y), Ahead(ascending, y, z), Ahead(ascending, x, z))
  {
    assert Tame(iset{x, y, z}) && DatesFit(iset{x, y, z});
    ScalarsOpposite(x, y);
    ScalarsOpposite(y, z);
    ScalarsOpposite(x, z);
    hide Tame, DatesFit, Compare;
    LeavesChain(x, y, z, iset{x, y, z});
    LeavesChain(z, y, x, iset{x, y, z});
  }

  lemma NumbersCarry(ascending: bool, x: Value, y: Value, z: Value, values: iset<Value>)
    requires TameNumbers(values) && x in values && y in values && z in values
    requires IsNumeric(x) && IsNumeric(y) && IsNumeric(z)
    ensures Carries(Ahead(ascending, x, y), Ahead(ascending, y, z), Ahead(ascending, x, z))
  {
    NumbersChainIff(x, y, z);
    NumbersChainIff(z, y, x);
    NumbersInStep(x, y, values);
    NumbersInStep(y, z, values);
    NumbersInStep(x, z, values);
    NumbersChainIff(x, y, y);
    NumbersChainIff(y, z, z);
    NumbersChainIff(x, z, z);
    hide Compare, TameNumbers;
  }

  lemma DatesInOrder(ascending: bool, x: int, y: int, z: int, values: iset<Value>)
    requires TameFor(ascending, values) && DatesFit(values)
    requires DateTime(x) in values && DateTime(y) in values && DateTime(z) in values
    ensures DatesCarry(ascending, x, y, z)
  {
    DatesFitIn(values, DateTime(x));
    DatesFitIn(values, DateTime(y));
    DatesFitIn(values, DateTime(z));
    if HalfTurn(x, y) || HalfTurn(y, z) || HalfTurn(x, z) {
      assert !ascending && (x == y || y == z || x == z);
      DatesOppositeIff(x, y);
      DatesOppositeIff(y, z);
      DatesOppositeIff(x, z);
    } else if ascending {
      DatesCarryUp(x, y, z);
    } else {
      DatesCarryDown(x, y, z);
    }
    hide Compare;
  }

  lemma AheadCarries(ascending: bool, x: Value, y: Value, z: Value, values: iset<Value>)
    requires TameFor(ascending, values) && Scalars(values) && DatesFit(values)
    requires x in values && y in values && z in values
    ensures Carries(Ahead(ascending, x, y), Ahead(ascending, y, z), Ahead(ascending, x, z))
  {
    if TypeRank(x) == TypeRank(y) == TypeRank(z) {
      if IsNumeric(x) {
        NumbersCarry(ascending, x, y, z, values);
      } else if x.DateTime? {
        DatesInOrder(ascending, x.millis, y.millis, z.millis, values);
      } else if x.Regex? {
        PatternsCarry(ascending, x, y, z);
      } else {
        OthersCarry(ascending, x, y, z);
      }
      hide Compare;
    } else {
      hide CompareScalars, CompareFrom;
    }
  }

  /** One key's predicate is a strict weak order on a set of scalars exactly when the set is tame for
      the key's direction.  Different patterns are no obstacle, as strcmp orders them in an ascending
      key and a descending one leaves them all level. */
  lemma WeakExactly(ascending: bool, values: iset<Value>)
    requires Scalars(values) && DatesFit(values)
    ensures WeakOrder(ascending, values) <==> TameFor(ascending, values)
  {
    if WeakOrder(ascending, values) {
      WeakNumbers(ascending, values);
      WeakDates(ascending, values);
    }
    if TameFor(ascending, values) {
      forall x, y | x in values && y in values ensures !(Ahead(ascending, x, y) && Ahead(ascending, y, x)) {
        if x.DateTime? && y.DateTime? { assert ascending ==> !HalfTurn(x.millis, y.millis); }
        AheadOneWay(ascending, x, y);
      }
      hide Compare, TameFor;
      forall x, y, z | x in values && y in values && z in values
        ensures Ahead(ascending, x, z) ==> Ahead(ascending, x, y) || Ahead(ascending, y, z)
      {
        AheadCarries(ascending, x, y, z, values);
      }
    }
  }

  ghost function Under(key: Key, documents: set<Doc>): iset<Value> {
    iset d | d in documents :: At(d, key.path)
  }

  /** So documents sorted by one key that holds scalars may be sorted exactly when those are tame. */
  lemma OneKeyExactly(key: Key, documents: set<Doc>)
    requires forall d :: d in documents ==> !HasFields(At(d, key.path)) && Fits(At(d, key.path))
    ensures WeaklyOrdered([key], documents) <==> TameFor(key.ascending, Under(key, documents))
  {
    var values := Under(key, documents);
    assert Scalars(values) && DatesFit(values);
    hide Compare, At, TameFor, Scalars, DatesFit, Fits;
    WeakExactly(key.ascending, values);
    if WeakOrder(key.ascending, values) { KeyOrders(key, documents); }
    if WeaklyOrdered([key], documents) { ValuesOrder(key, documents); }
  }

  lemma KeyOrders(key: Key, documents: set<Doc>)
    requires WeakOrder(key.ascending, Under(key, documents))
    ensures WeaklyOrdered([key], documents)
  {
    var values := Under(key, documents);
    assert forall d :: d in documents ==> At(d, key.path) in values;
    hide At, Ahead, Precedes, Under;
    forall a, b | a in documents && b in documents
      ensures Precedes([key], a, b) <==> Ahead(key.ascending, At(a, key.path), At(b, key.path))
    {
      OneKey(key, a, b);
    }
  }

  lemma ValuesOrder(key: Key, documents: set<Doc>)
    requires WeaklyOrdered([key], documents)
    ensures WeakOrder(key.ascending, Under(key, documents))
  {
    hide At, Ahead, Precedes;
    forall x, y | x in Under(key, documents) && y in Under(key, documents)
      ensures !(Ahead(key.ascending, x, y) && Ahead(key.ascending, y, x))
    {
      var a :| a in documents && At(a, key.path) == x;
      var b :| b in documents && At(b, key.path) == y;
      OneKey(key, a, b);
      OneKey(key, b, a);
    }
    forall x, y, z | x in Under(key, documents) && y in Under(key, documents) && z in Under(key, documents)
      ensures Ahead(key.ascending, x, z) ==> Ahead(key.ascending, x, y) || Ahead(key.ascending, y, z)
    {
      var a :| a in documents && At(a, key.path) == x;
      var b :| b in documents && At(b, key.path) == y;
      var c :| c in documents && At(c, key.path) == z;
      OneKey(key, a, b);
      OneKey(key, b, c);
      OneKey(key, a, c);
    }
  }

  lemma OneKey(key: Key, a: Doc, b: Doc)
    ensures Precedes([key], a, b) <==> Ahead(key.ascending, At(a, key.path), At(b, key.path))
  {
    hide Compare, At;
    assert CompareBy([key][1..], a, b) == 0;
  }

  /** In order: no document is followed by one strictly before it. */
  ghost predicate InOrder(keys: seq<Key>, s: seq<Doc>) {
    forall i, j :: 0 <= i < j < |s| ==> !Precedes(keys, s[j], s[i])
  }

  /** The documents of s level with x, in the order s has them. */
  function Level(keys: seq<Key>, s: seq<Doc>, x: Doc): seq<Doc> {
    if s == [] then []
    else (if Tied(keys, s[0], x) then [s[0]] else []) + Level(keys, s[1..], x)
  }

  /** A stable sort of s: in order, and level documents in the order they came in. */
  ghost predicate StablySorted(keys: seq<Key>, s: seq<Doc>, r: seq<Doc>) {
    InOrder(keys, r) && forall x :: x in s + r ==> Level(keys, r, x) == Level(keys, s, x)
  }

  ghost predicate Among(s: seq<Doc>, documents: set<Doc>) {
    forall i :: 0 <= i < |s| ==> s[i] in documents
  }

  lemma {:induction false} LevelAppend(keys: seq<Key>, a: seq<Doc>, b: seq<Doc>, x: Doc)
    ensures Level(keys, a + b, x) == Level(keys, a, x) + Level(keys, b, x)
  {
    hide Tied;
    if a == [] {
      assert a + b == b;
    } else {
      var head := if Tied(keys, a[0], x) then [a[0]] else [];
      assert (a + b)[0] == a[0] && (a + b)[1..] == a[1..] + b;
      LevelAppend(keys, a[1..], b, x);
      assert head + (Level(keys, a[1..], x) + Level(keys, b, x)) == (head + Level(keys, a[1..], x)) + Level(keys, b, x);
    }
  }

  lemma {:induction false} InsertInOrder(keys: seq<Key>, documents: set<Doc>, s: seq<Doc>, x: Doc)
    requires WeaklyOrdered(keys, documents) && Among(s, documents) && x in documents && InOrder(keys, s)
    ensures InOrder(keys, Insert(keys, s, x))
  {
    assert s == [] ==> InOrder(keys, Insert(keys, s, x));
    hide Precedes, InOrder;
    if s != [] {
      var front, last := s[..|s| - 1], s[|s| - 1];
      FrontInOrder(keys, s);
      if Precedes(keys, x, last) {
        InsertInOrder(keys, documents, front, x);
        var r := Insert(keys, front, x);
        forall k | 0 <= k < |r| ensures !Precedes(keys, last, r[k]) {
          InsertMembers(keys, front, x, r[k]);
          if r[k] != x {
            var j :| 0 <= j < |front| && front[j] == r[k];
            assert s[j] == front[j];
          }
        }
        PutLast(keys, r, last);
      } else {
        PutLast(keys, s, x);
      }
    }
  }

  lemma FrontInOrder(keys: seq<Key>, s: seq<Doc>)
    requires s != [] && InOrder(keys, s)
    ensures InOrder(keys, s[..|s| - 1])
    ensures forall k :: 0 <= k < |s| - 1 ==> !Precedes(keys, s[|s| - 1], s[k])
  {
    hide Precedes;
  }

  lemma PutLast(keys: seq<Key>, s: seq<Doc>, x: Doc)
    requires InOrder(keys, s) && forall k :: 0 <= k < |s| ==> !Precedes(keys, x, s[k])
    ensures InOrder(keys, s + [x])
  {
    hide Precedes;
  }

  lemma {:induction false} InsertStable(keys: seq<Key>, documents: set<Doc>, s: seq<Doc>, x: Doc, y: Doc)
    requires WeaklyOrdered(keys, documents) && Among(s, documents) && x in documents && y in documents
    ensures Level(keys, Insert(keys, s, x), y) == Level(keys, s + [x], y)
  {
    hide Precedes;
    if s == [] {
      assert s + [x] == [x];
    } else {
      var front, last := s[..|s| - 1], s[|s| - 1];
      assert s == front + [last];
      if Precedes(keys, x, last) {
        InsertStable(keys, documents, front, x, y);
        LevelAppend(keys, Insert(keys, front, x), [last], y);
        LevelAppend(keys, front, [x], y);
        LevelAppend(keys, front, [last], y);
        LevelAppend(keys, s, [x], y);
        assert !Tied(keys, last, y) || !Tied(keys, x, y);
      }
    }
  }

  lemma {:induction false} SortInOrder(keys: seq<Key>, documents: set<Doc>, s: seq<Doc>)
    requires WeaklyOrdered(keys, documents) && Among(s, documents)
    ensures InOrder(keys, StableSort(keys, s))
    ensures Among(StableSort(keys, s), documents)
  {
    hide Precedes, WeaklyOrdered, Insert;
    if s != [] {
      var front, last := s[..|s| - 1], s[|s| - 1];
      SortInOrder(keys, documents, front);
      InsertInOrder(keys, documents, StableSort(keys, front), last);
    }
    SortPermutes(keys, s);
    var r := StableSort(keys, s);
    forall i | 0 <= i < |r| ensures r[i] in documents {
      assert r[i] in multiset(r);
      assert r[i] in s;
    }
  }

  lemma {:induction false} SortKeepsLevels(keys: seq<Key>, documents: set<Doc>, s: seq<Doc>, y: Doc)
    requires WeaklyOrdered(keys, documents) && Among(s, documents) && y in documents
    ensures Level(keys, StableSort(keys, s), y) == Level(keys, s, y)
  {
    hide Precedes, WeaklyOrdered, Insert, Level;
    if s != [] {
      var front, last := s[..|s| - 1], s[|s| - 1];
      SortKeepsLevels(keys, documents, front, y);
      var r := StableSort(keys, front);
      SortInOrder(keys, documents, front);
      InsertStable(keys, documents, r, last, y);
      LevelAppend(keys, r, [last], y);
      LevelAppend(keys, front, [last], y);
      assert s == front + [last];
    }
  }

  lemma {:induction false} LevelMembers(keys: seq<Key>, s: seq<Doc>, x: Doc, y: Doc)
    ensures y in Level(keys, s, x) <==> y in s && Tied(keys, y, x)
  {
    hide Tied;
    if s != [] { LevelMembers(keys, s[1..], x, y); }
  }

  /** Two sequences in order that agree on every level are the same sequence. */
  lemma {:induction false} Unique(keys: seq<Key>, a: seq<Doc>, b: seq<Doc>)
    requires InOrder(keys, a) && InOrder(keys, b)
    requires forall x :: x in a + b ==> Level(keys, a, x) == Level(keys, b, x)
    ensures a == b
    decreases |a|
  {
    hide Precedes;
    if a != [] || b != [] {
      var x := if a != [] then a[0] else b[0];
      SameMembers(keys, a, b, x);
      SameMembers(keys, a, b, b[0]);
      LevelHead(keys, a, b);
      forall y | y in a[1..] + b[1..] ensures Level(keys, a[1..], y) == Level(keys, b[1..], y) {
        assert y in a + b;
        LevelTail(keys, a, b, y);
      }
      Unique(keys, a[1..], b[1..]);
      assert a == [a[0]] + a[1..] && b == [b[0]] + b[1..];
    }
  }

  lemma SameMembers(keys: seq<Key>, a: seq<Doc>, b: seq<Doc>, x: Doc)
    requires x in a || x in b
    requires Level(keys, a, x) == Level(keys, b, x)
    ensures x in a && x in b
  {
    ByReflexive(keys, x);
    LevelMembers(keys, a, x, x);
    LevelMembers(keys, b, x, x);
  }

  lemma LevelHead(keys: seq<Key>, a: seq<Doc>, b: seq<Doc>)
    requires InOrder(keys, a) && InOrder(keys, b)
    requires a != [] && b != [] && a[0] in b && b[0] in a && Level(keys, a, a[0]) == Level(keys, b, a[0])
    ensures a[0] == b[0]
  {
    var i :| 0 <= i < |a| && a[i] == b[0];
    var j :| 0 <= j < |b| && b[j] == a[0];
    ByReflexive(keys, a[0]);
    ByReflexive(keys, b[0]);
    assert Tied(keys, a[0], a[0]) && Tied(keys, b[0], a[0]);
    hide CompareBy, Precedes;
    assert Level(keys, a, a[0])[0] == a[0] && Level(keys, b, a[0])[0] == b[0];
  }

  lemma LevelTail(keys: seq<Key>, a: seq<Doc>, b: seq<Doc>, y: Doc)
    requires a != [] && b != [] && a[0] == b[0] && Level(keys, a, y) == Level(keys, b, y)
    ensures Level(keys, a[1..], y) == Level(keys, b[1..], y)
  {
    var head := if Tied(keys, a[0], y) then [a[0]] else [];
    hide Tied;
    assert Level(keys, a, y) == head + Level(keys, a[1..], y);
    assert Level(keys, b, y) == head + Level(keys, b[1..], y);
    assert (head + Level(keys, a[1..], y))[|head|..] == Level(keys, a[1..], y);
    assert (head + Level(keys, b[1..], y))[|head|..] == Level(keys, b[1..], y);
  }

  /** Where the sort may be called at all it is stable, and its result is the only arrangement that is. */
  lemma StableExactly(keys: seq<Key>, s: seq<Doc>, r: seq<Doc>)
    requires WeaklyOrdered(keys, set x | x in s)
    ensures StablySorted(keys, s, r) <==> r == StableSort(keys, s)
  {
    hide Precedes, WeaklyOrdered, Level, StableSort;
    var documents := set x | x in s;
    var sorted := StableSort(keys, s);
    SortInOrder(keys, documents, s);
    forall x | x in s + sorted ensures Level(keys, sorted, x) == Level(keys, s, x) {
      SortKeepsLevels(keys, documents, s, x);
    }
    if StablySorted(keys, s, r) {
      forall x | x in r + sorted ensures Level(keys, r, x) == Level(keys, sorted, x) {
        if x in r { SameMembers(keys, r, s, x); }
      }
      Unique(keys, r, sorted);
    }
  }

  // ---------------------------------------------------------------- what a specification asks

  /** The number n, in any numeric type. */
  predicate Is(v: Value, n: int) {
    v == Int32(n) || v == Int64(n) || v == Dbl(Finite(n as real))
  }

  predicate IsDirection(v: Value) {
    Is(v, 1) || Is(v, -1)
  }

  predicate Usable(f: Field) {
    IsDirection(f.value) && SplitPath(f.key).Some?
  }

  /** A specification is refused for its first unusable field, whose number is looked at before its name. */
  ghost predicate RefusedFor(spec: seq<Field>, refusal: Option<Refusal>) {
    match refusal
    case None => forall k :: 0 <= k < |spec| ==> Usable(spec[k])
    case Some(r) =>
      exists k :: 0 <= k < |spec| && (forall j :: 0 <= j < k ==> Usable(spec[j])) && RefusedField(spec[k], r)
  }

  predicate RefusedField(f: Field, r: Refusal) {
    match r
    case BadValue => !IsDirection(f.value)
    case FailedToParse => IsDirection(f.value) && SplitPath(f.key).None?
  }

  /** What a document has under a dotted name; nothing there reads as null. */
  function Reads(doc: Doc, name: string): Value {
    match SplitPath(name)
    case None => Null
    case Some(path) => match Get(doc, path) case None => Null case Some(v) => v
  }

  function CompareField(f: Field, a: Doc, b: Doc): int {
    Compare(Reads(a, f.key), Reads(b, f.key))
  }

  /** Field k is the first under which the documents do not compare equal. */
  predicate DecidesAt(spec: seq<Field>, a: Doc, b: Doc, k: nat) {
    k < |spec| && CompareField(spec[k], a, b) != 0 && forall j :: 0 <= j < k ==> CompareField(spec[j], a, b) == 0
  }

  /** The field's number is 1 and the first value is the smaller, or it is -1 and it is the greater. */
  predicate Favours(f: Field, a: Doc, b: Doc) {
    if Is(f.value, 1) then CompareField(f, a, b) < 0 else CompareField(f, a, b) > 0
  }

  /** What the specification asks to come strictly first: decided by the first field they differ in. */
  ghost predicate AheadBySpec(spec: seq<Field>, a: Doc, b: Doc) {
    exists k: nat :: DecidesAt(spec, a, b, k) && Favours(spec[k], a, b)
  }

  ghost predicate WeakBySpec(spec: seq<Field>, documents: set<Doc>) {
    && (forall a, b :: a in documents && b in documents ==> !(AheadBySpec(spec, a, b) && AheadBySpec(spec, b, a)))
    && (forall a, b, c :: a in documents && b in documents && c in documents ==>
          (AheadBySpec(spec, a, c) ==> AheadBySpec(spec, a, b) || AheadBySpec(spec, b, c)))
  }

  /** The documents of s that the specification puts neither before nor after x. */
  ghost function Peers(spec: seq<Field>, s: seq<Doc>, x: Doc): seq<Doc> {
    if s == [] then []
    else (if !AheadBySpec(spec, s[0], x) && !AheadBySpec(spec, x, s[0]) then [s[0]] else []) + Peers(spec, s[1..], x)
  }

  /** Sorted as the specification asks: nothing is followed by what should come strictly first, and
      documents it leaves level are in the order they came in. */
  ghost predicate SortedBySpec(spec: seq<Field>, s: seq<Doc>, r: seq<Doc>) {
    && (forall i, j :: 0 <= i < j < |r| ==> !AheadBySpec(spec, r[j], r[i]))
    && (forall x :: x in s ==> Peers(spec, r, x) == Peers(spec, s, x))
  }

  /** Only the integer 1 rounds to 1, and only -1 to -1. */
  lemma OnlyOneRoundsToOne(n: int)
    ensures RoundToDouble(n) == 1 <==> n == 1
    ensures RoundToDouble(n) == -1 <==> n == -1
  {
    var m := if n < 0 then -n else n;
    if TWO_53 <= m { RoundedStaysLarge(m, 1); }
    hide RoundAt;
    SmallIsExact(m);
  }

  lemma DirectionIs(v: Value)
    ensures Direction(v) == Finite(1.0) <==> Is(v, 1)
    ensures Direction(v) == Finite(-1.0) <==> Is(v, -1)
  {
    hide RoundToDouble;
    if v.Int64? { OnlyOneRoundsToOne(v.n); }
  }

  /** Key by key, what the parsed specification holds. */
  predicate KeysOf(spec: seq<Field>, keys: seq<Key>) {
    |keys| == |spec| &&
    forall k :: 0 <= k < |spec| ==>
      Usable(spec[k]) && keys[k] == Key(SplitPath(spec[k].key).value, Is(spec[k].value, 1))
  }

  /** How a specification parses behind keys already parsed. */
  ghost predicate ParsesTo(spec: seq<Field>, so: seq<Key>, r: Result<seq<Key>>) {
    match r
    case Ok(keys) => RefusedFor(spec, None) && so <= keys && KeysOf(spec, keys[|so|..])
    case Err(e) => RefusedFor(spec, Some(e))
  }

  lemma {:induction false} ParsedSpec(spec: seq<Field>, so: seq<Key>)
    ensures ParsesTo(spec, so, ParseKeys(spec, so))
    decreases |spec|
  {
    hide SplitPath, Direction, Is;
    if spec != [] {
      DirectionIs(spec[0].value);
      var key := ParseKey(spec[0]);
      if key.Ok? {
        hide ParseKey;
        ParsedSpec(spec[1..], so + [key.value]);
        ParsesBehind(spec, so, key.value, ParseKeys(spec[1..], so + [key.value]));
      } else {
        assert RefusedField(spec[0], key.refusal);
      }
    }
  }

  lemma ParsesBehind(spec: seq<Field>, so: seq<Key>, key: Key, r: Result<seq<Key>>)
    requires spec != [] && Usable(spec[0]) && key == Key(SplitPath(spec[0].key).value, Is(spec[0].value, 1))
    requires ParsesTo(spec[1..], so + [key], r)
    ensures ParsesTo(spec, so, r)
  {
    hide SplitPath, Is, IsDirection, RefusedField;
    if r.Ok? {
      assert so + [key] <= r.value && r.value[|so|..] == [key] + r.value[|so + [key]|..];
      var keys := r.value[|so|..];
      forall k | 0 <= k < |spec|
        ensures Usable(spec[k]) && keys[k] == Key(SplitPath(spec[k].key).value, Is(spec[k].value, 1))
      {
        if k > 0 { assert spec[k] == spec[1..][k - 1] && Usable(spec[1..][k - 1]); }
      }
    } else {
      var rest := spec[1..];
      var k :| 0 <= k < |rest| && (forall j :: 0 <= j < k ==> Usable(rest[j])) && RefusedField(rest[k], r.refusal);
      assert spec[1..][k] == spec[k + 1];
      forall j | 0 <= j < k + 1
        ensures Usable(spec[j])
      {
        if j > 0 { assert spec[j] == spec[1..][j - 1]; }
      }
    }
  }

  lemma ReadsIs(key: Key, name: string, doc: Doc)
    requires SplitPath(name) == Some(key.path)
    ensures At(doc, key.path) == Reads(doc, name)
  {
    hide SplitPath, Get;
  }

  /** The sort's predicate is what the specification asks. */
  lemma {:induction false} PrecedesIsAhead(spec: seq<Field>, keys: seq<Key>, a: Doc, b: Doc)
    requires KeysOf(spec, keys)
    ensures Precedes(keys, a, b) <==> AheadBySpec(spec, a, b)
    decreases |spec|
  {
    hide Compare, At, Reads, SplitPath, Is;
    if spec == [] {
      assert forall k: nat :: !DecidesAt(spec, a, b, k);
    } else {
      ReadsIs(keys[0], spec[0].key, a);
      ReadsIs(keys[0], spec[0].key, b);
      var diff := CompareField(spec[0], a, b);
      if diff != 0 {
        assert DecidesAt(spec, a, b, 0);
        assert forall k: nat :: DecidesAt(spec, a, b, k) ==> k == 0;
        assert keys[0].ascending == Is(spec[0].value, 1);
      } else {
        PrecedesIsAhead(spec[1..], keys[1..], a, b);
        AheadBehind(spec, a, b);
      }
    }
  }

  lemma AheadBehind(spec: seq<Field>, a: Doc, b: Doc)
    requires spec != [] && CompareField(spec[0], a, b) == 0
    ensures AheadBySpec(spec, a, b) <==> AheadBySpec(spec[1..], a, b)
  {
    hide CompareField, Favours;
    if AheadBySpec(spec, a, b) {
      var k: nat :| DecidesAt(spec, a, b, k) && Favours(spec[k], a, b);
      assert DecidesAt(spec[1..], a, b, k - 1) && spec[1..][k - 1] == spec[k];
    }
    if AheadBySpec(spec[1..], a, b) {
      var k: nat :| DecidesAt(spec[1..], a, b, k) && Favours(spec[1..][k], a, b);
      forall j | 0 <= j < k + 1
        ensures CompareField(spec[j], a, b) == 0
      {
        if j > 0 { assert spec[j] == spec[1..][j - 1]; }
      }
      assert DecidesAt(spec, a, b, k + 1) && spec[1..][k] == spec[k + 1];
    }
  }

  lemma {:induction false} LevelIsPeers(spec: seq<Field>, keys: seq<Key>, s: seq<Doc>, x: Doc)
    requires KeysOf(spec, keys)
    ensures Level(keys, s, x) == Peers(spec, s, x)
  {
    hide Precedes, AheadBySpec, KeysOf;
    if s != [] {
      PrecedesIsAhead(spec, keys, s[0], x);
      PrecedesIsAhead(spec, keys, x, s[0]);
      LevelIsPeers(spec, keys, s[1..], x);
    }
  }

  lemma WeakIs(spec: seq<Field>, keys: seq<Key>, documents: set<Doc>)
    requires KeysOf(spec, keys) && WeakBySpec(spec, documents)
    ensures WeaklyOrdered(keys, documents)
  {
    hide Precedes, AheadBySpec, KeysOf;
    forall a, b | a in documents && b in documents
      ensures Precedes(keys, a, b) <==> AheadBySpec(spec, a, b)
    {
      PrecedesIsAhead(spec, keys, a, b);
    }
  }

  /** Where the specification asks for a strict weak order, the sort gives what it asks. */
  lemma SortMeetsSpec(spec: seq<Field>, keys: seq<Key>, s: seq<Doc>)
    requires KeysOf(spec, keys) && WeakBySpec(spec, set x | x in s)
    ensures SortedBySpec(spec, s, StableSort(keys, s))
  {
    hide Precedes, AheadBySpec, KeysOf, WeakBySpec, WeaklyOrdered, Level, Peers, StableSort;
    var r := StableSort(keys, s);
    WeakIs(spec, keys, set x | x in s);
    StableExactly(keys, s, r);
    forall i, j | 0 <= i < j < |r|
      ensures !AheadBySpec(spec, r[j], r[i])
    {
      PrecedesIsAhead(spec, keys, r[j], r[i]);
    }
    forall x | x in s
      ensures Peers(spec, r, x) == Peers(spec, s, x)
    {
      assert x in s + r;
      LevelIsPeers(spec, keys, r, x);
      LevelIsPeers(spec, keys, s, x);
    }
  }

  /** Parsing and sorting together. */
  function SortFor(spec: seq<Field>, s: seq<Doc>): Result<seq<Doc>> {
    match ParseKeys(spec, [])
    case Err(e) => Err(e)
    case Ok(keys) => Ok(StableSort(keys, s))
  }

  ghost predicate SortsBySpec(spec: seq<Field>, s: seq<Doc>, r: Result<seq<Doc>>) {
    match r
    case Err(e) => RefusedFor(spec, Some(e))
    case Ok(sorted) =>
      && RefusedFor(spec, None) && multiset(sorted) == multiset(s)
      && (WeakBySpec(spec, set x | x in s) ==> SortedBySpec(spec, s, sorted))
  }

  lemma SortMeansSpec(spec: seq<Field>, s: seq<Doc>)
    ensures SortsBySpec(spec, s, SortFor(spec, s))
  {
    hide WeakBySpec, SortedBySpec, StableSort, RefusedFor, KeysOf;
    ParsedSpec(spec, []);
    match ParseKeys(spec, []) {
      case Err(_) =>
      case Ok(keys) =>
        assert keys[0..] == keys;
        SortPermutes(keys, s);
        if WeakBySpec(spec, set x | x in s) { SortMeetsSpec(spec, keys, s); }
    }
  }

  /** Of two documents in sorted order, the first field they differ in has the smaller value first
      where its number is 1, and the greater first where it is -1; as long as comparing the other way
      round gives the opposite sign, which `OppositeExactly` says when it does. */
  lemma SortedSides(spec: seq<Field>, s: seq<Doc>, r: seq<Doc>, i: nat, j: nat, k: nat)
    requires SortedBySpec(spec, s, r) && i < j < |r| && DecidesAt(spec, r[i], r[j], k) && RefusedFor(spec, None)
    requires forall f :: f in spec ==> CompareField(f, r[i], r[j]) == -CompareField(f, r[j], r[i])
    ensures Is(spec[k].value, 1) ==> CompareField(spec[k], r[i], r[j]) < 0
    ensures Is(spec[k].value, -1) ==> CompareField(spec[k], r[i], r[j]) > 0
  {
    hide CompareField, Peers;
    assert DecidesAt(spec, r[j], r[i], k);
    assert !Favours(spec[k], r[j], r[i]);
  }

  // ---------------------------------------------------------------- sorting in place

  /** Sort-key parsing: the direction of each field is looked at before its path. */
  method ParseSortKeys(spec: seq<Field>) returns (r: Result<seq<Key>>)
    ensures r == ParseKeys(spec, [])
  {
    var keys: seq<Key> := [];
    for k := 0 to |spec|
      invariant ParseKeys(spec, []) == ParseKeys(spec[k..], keys)
    {
      assert spec[k..][0] == spec[k] && spec[k..][1..] == spec[k + 1..];
      var direction := Direction(spec[k].value);
      if direction != Finite(1.0) && direction != Finite(-1.0) { return Err(BadValue); }
      var path := SplitPath(spec[k].key);
      if path.None? { return Err(FailedToParse); }
      keys := keys + [Key(path.value, direction == Finite(1.0))];
    }
    return Ok(keys);
  }

  /** The comparison the sort is given. */
  method IsBefore(keys: seq<Key>, left: Doc, right: Doc) returns (before: bool)
    ensures before == Precedes(keys, left, right)
  {
    for k := 0 to |keys|
      invariant CompareBy(keys, left, right) == CompareBy(keys[k..], left, right)
    {
      assert keys[k..][0] == keys[k] && keys[k..][1..] == keys[k + 1..];
      var a := PathGet(left, keys[k].path);
      var b := PathGet(right, keys[k].path);
      var diff := Compare(a.GetOr(Null), b.GetOr(Null));
      if diff != 0 { return if keys[k].ascending then diff < 0 else diff > 0; }
    }
    return false;
  }

  method SwapDown(documents: array<Doc>, j: nat)
    requires 0 < j < documents.Length
    modifies documents
    ensures documents[..] == old(documents[..])[j := old(documents[j - 1])][j - 1 := old(documents[j])]
  {
    documents[j], documents[j - 1] := documents[j - 1], documents[j];
  }

  /** Sinks the document at index i to its place among the sorted ones before it. */
  method Sink(keys: seq<Key>, documents: array<Doc>, i: nat)
    requires i < documents.Length
    modifies documents
    ensures documents[..i + 1] == Insert(keys, old(documents[..i]), old(documents[i]))
    ensures documents[i + 1..] == old(documents[i + 1..])
  {
    hide Precedes, Insert;
    ghost var s, x, rest := documents[..i], documents[i], documents[i + 1..];
    var j := i;
    assert s[..i] == s && s[i..] == [];
    var before := j > 0;
    if before { before := IsBefore(keys, documents[j], documents[j - 1]); }
    while before
      invariant 0 <= j <= i
      invariant documents[..] == Sunk(s, j, x) + rest
      invariant before == (j > 0 && Precedes(keys, x, s[j - 1]))
      invariant Insert(keys, s, x) == Insert(keys, s[..j], x) + s[j..]
      decreases j
    {
      InsertStep(keys, s, j, x);
      SinkStep(s, j, x, rest);
      assert documents[j - 1] == documents[..][j - 1] && documents[j] == documents[..][j];
      SwapDown(documents, j);
      j := j - 1;
      before := j > 0;
      if before {
        assert documents[j] == documents[..][j] && documents[j - 1] == documents[..][j - 1];
        before := IsBefore(keys, documents[j], documents[j - 1]);
      }
    }
    InsertHere(keys, s[..j], x);
    assert documents[..i + 1] == documents[..][..i + 1] && documents[i + 1..] == documents[..][i + 1..];
  }

  /** The documents up to index |s| while x, taken from there, waits at index j. */
  ghost function Sunk(s: seq<Doc>, j: nat, x: Doc): (r: seq<Doc>)
    requires j <= |s|
    ensures |r| == |s| + 1
  {
    s[..j] + [x] + s[j..]
  }

  lemma SinkStep(s: seq<Doc>, j: nat, x: Doc, rest: seq<Doc>)
    requires 0 < j <= |s|
    ensures (Sunk(s, j, x) + rest)[j] == x && (Sunk(s, j, x) + rest)[j - 1] == s[j - 1]
    ensures (Sunk(s, j, x) + rest)[j := s[j - 1]][j - 1 := x] == Sunk(s, j - 1, x) + rest
  {
  }

  lemma InsertStep(keys: seq<Key>, s: seq<Doc>, j: nat, x: Doc)
    requires 0 < j <= |s| && Precedes(keys, x, s[j - 1])
    ensures Insert(keys, s[..j], x) + s[j..] == Insert(keys, s[..j - 1], x) + s[j - 1..]
  {
    hide Precedes;
    assert s[..j][..j - 1] == s[..j - 1] && s[j - 1..] == [s[j - 1]] + s[j..];
  }

  lemma InsertHere(keys: seq<Key>, s: seq<Doc>, x: Doc)
    requires s == [] || !Precedes(keys, x, s[|s| - 1])
    ensures Insert(keys, s, x) == s + [x]
  {
    hide Precedes;
  }

  /** sort_documents, as its specification asks: refused for its first unusable field, with the order
      left as it was, and otherwise a stable sort, wherever the specification asks for an order. */
  method SortDocuments(documents: array<Doc>, spec: seq<Field>) returns (refusal: Option<Refusal>)
    modifies documents
    ensures RefusedFor(spec, refusal)
    ensures refusal.Some? ==> documents[..] == old(documents[..])
    ensures multiset(documents[..]) == multiset(old(documents[..]))
    ensures refusal.None? && WeakBySpec(spec, set x | x in old(documents[..])) ==>
              SortedBySpec(spec, old(documents[..]), documents[..])
    ensures var r := SortFor(spec, old(documents[..]));
            refusal == (if r.Err? then Some(r.refusal) else None) && (r.Ok? ==> documents[..] == r.value)
  {
    hide WeakBySpec, SortedBySpec, StableSort, RefusedFor;
    SortMeansSpec(spec, documents[..]);
    if spec == [] {
      SortByNothing(documents[..]);
      return None;
    }
    var parsed := ParseSortKeys(spec);
    if parsed.Err? { return Some(parsed.refusal); }
    SortByKeys(documents, parsed.value);
    return None;
  }

  method SortByKeys(documents: array<Doc>, keys: seq<Key>)
    modifies documents
    ensures documents[..] == StableSort(keys, old(documents[..]))
  {
    hide Precedes, Insert;
    ghost var was := documents[..];
    for i := 0 to documents.Length
      invariant documents[..i] == StableSort(keys, was[..i])
      invariant documents[i..] == was[i..]
    {
      assert was[..i + 1][..i] == was[..i] && documents[i] == documents[i..][0] == was[i];
      Sink(keys, documents, i);
      assert documents[i + 1..] == was[i + 1..];
    }
    assert was[..|was|] == was;
  }

  /** Without keys every document is level with every other, so sorting leaves the order alone. */
  lemma {:induction false} SortByNothing(s: seq<Doc>)
    ensures StableSort([], s) == s
  {
    if s != [] {
      SortByNothing(s[..|s| - 1]);
      assert s == s[..|s| - 1] + [s[|s| - 1]];
    }
  }
}
