/** Primary-key bytes of a document's _id: equal ids get equal keys, and numeric keys keep
    numeric order when compared byte by byte. */
module IdKey {
  import opened Optional

  type Byte = n: nat | n < 256

  type Bits = n: nat | n < 0x1_0000_0000_0000_0000

  const TWO_63: nat := 0x8000_0000_0000_0000
  const TWO_52: nat := 0x10_0000_0000_0000

  /** A double is its 64 bits; the other supported ids are their payloads. */
  datatype Id = Oid(bytes: seq<Byte>) | Str(bytes: seq<Byte>) | Int32(n: int) | Int64(n: int) | Dbl(bits: Bits) | Other

  datatype Refusal = TypeMismatch | BadValue

  datatype Result<+T> = Ok(value: T) | Err(refusal: Refusal)

  predicate Valid(id: Id) {
    match id
    case Oid(bytes) => |bytes| == 12
    case Int32(n) => -0x8000_0000 <= n < 0x8000_0000
    case Int64(n) => -(TWO_63 as int) <= n < TWO_63
    case _ => true
  }

  // ---------------------------------------------------------------- big-endian bytes

  function Bytes(n: nat, width: nat): (r: seq<Byte>)
    ensures |r| == width
    decreases width
  {
    if width == 0 then [] else Bytes(n / 256, width - 1) + [n % 256]
  }

  function Number(bytes: seq<Byte>): nat {
    if bytes == [] then 0 else Number(bytes[..|bytes| - 1]) * 256 + bytes[|bytes| - 1]
  }

  function Pow256(n: nat): (p: nat)
    ensures p > 0
  {
    if n == 0 then 1 else 256 * Pow256(n - 1)
  }

  lemma {:induction false} NumberBytes(n: nat, width: nat)
    requires n < Pow256(width)
    ensures Number(Bytes(n, width)) == n
  {
    if width > 0 {
      NumberBytes(n / 256, width - 1);
      assert Bytes(n, width)[..width - 1] == Bytes(n / 256, width - 1);
    }
  }

  lemma {:induction false} BytesNumber(bytes: seq<Byte>)
    ensures Number(bytes) < Pow256(|bytes|)
    ensures Bytes(Number(bytes), |bytes|) == bytes
  {
    if bytes != [] {
      BytesNumber(bytes[..|bytes| - 1]);
      assert bytes == bytes[..|bytes| - 1] + [bytes[|bytes| - 1]];
    }
  }

  lemma Pow256Eight()
    ensures Pow256(8) == 0x1_0000_0000_0000_0000
  {
    assert Pow256(4) == 256 * 256 * 256 * 256;
    assert Pow256(8) == 256 * (256 * (256 * (256 * Pow256(4))));
  }

  /** bits >> 8k */
  function ShiftRight(bits: nat, k: nat): nat {
    if k == 0 then bits else ShiftRight(bits, k - 1) / 256
  }

  /** big_endian: the most significant byte first. */
  method BigEndian(bits: Bits) returns (out: seq<Byte>)
    ensures out == Bytes(bits, 8)
  {
    out := [];
    for i := 0 to 8
      invariant out == Bytes(ShiftRight(bits, 8 - i), i)
    {
      out := out + [ShiftRight(bits, 7 - i) % 256];
    }
  }

  method FromBigEndian(bytes: seq<Byte>) returns (bits: nat)
    requires |bytes| == 8
    ensures bits == Number(bytes)
  {
    bits := 0;
    for i := 0 to 8
      invariant bits == Number(bytes[..i])
    {
      assert bytes[..i + 1][..i] == bytes[..i];
      bits := bits * 256 + bytes[i];
    }
    assert bytes[..8] == bytes;
  }

  // ---------------------------------------------------------------- doubles as bits

  function Pow2(n: nat): (p: nat)
    ensures p > 0
  {
    if n == 0 then 1 else 2 * Pow2(n - 1)
  }

  /** The magnitude of a double in units of 2^-1074, the smallest there is; infinity is one step
      above the largest finite double. */
  function Magnitude(m: nat): nat {
    var exponent, mantissa := m / TWO_52, m % TWO_52;
    if exponent == 0 then mantissa else (TWO_52 + mantissa) * Pow2(exponent - 1)
  }

  function Unsigned(bits: Bits): nat {
    bits % TWO_63
  }

  predicate Negative(bits: Bits) {
    bits >= TWO_63
  }

  predicate IsNaN(bits: Bits) {
    Unsigned(bits) > 2047 * TWO_52
  }

  predicate IsFinite(bits: Bits) {
    Unsigned(bits) < 2047 * TWO_52
  }

  /** The value in units of 2^-1074. */
  function Scaled(bits: Bits): int {
    var m: int := Magnitude(Unsigned(bits));
    if Negative(bits) then -m else m
  }

  function Unit(): (u: nat)
    ensures u > 0
  {
    Pow2(1074)
  }

  /** Finite, without a fraction, and within the range of an int64. */
  predicate IsInteger(bits: Bits) {
    IsFinite(bits) && Scaled(bits) % Unit() == 0 &&
    -(TWO_63 as int) <= Scaled(bits) / Unit() < TWO_63
  }

  lemma {:induction false} Pow2Grows(a: nat, b: nat)
    requires a <= b
    ensures Pow2(a) <= Pow2(b)
    decreases b - a
  {
    if a < b { Pow2Grows(a, b - 1); }
  }

  /** Magnitudes are in the order of their bits. */
  lemma MagnitudeGrows(a: nat, b: nat)
    requires a < b
    ensures Magnitude(a) < Magnitude(b)
  {
    var e, f := a / TWO_52, b / TWO_52;
    var s, t := a % TWO_52, b % TWO_52;
    assert a == e * TWO_52 + s && b == f * TWO_52 + t;
    if e == f {
      assert s < t;
      if e > 0 { Scales(TWO_52 + s, TWO_52 + t, Pow2(e - 1)); }
    } else {
      assert e < f;
      Pow2Grows(e, f - 1);
      assert Magnitude(a) < TWO_52 * Pow2(e) by {
        if e > 0 {
          Scales(TWO_52 + s, 2 * TWO_52, Pow2(e - 1));
          assert 2 * TWO_52 * Pow2(e - 1) == TWO_52 * Pow2(e);
        } else {
          assert TWO_52 * Pow2(0) == TWO_52;
        }
      }
      assert TWO_52 * Pow2(e) <= TWO_52 * Pow2(f - 1) <= (TWO_52 + t) * Pow2(f - 1);
    }
  }

  lemma Scales(a: nat, b: nat, p: nat)
    requires a < b && p > 0
    ensures a * p < b * p
  {
  }

  // ---------------------------------------------------------------- keys

  const TAG_DOUBLE: Byte := 0x01
  const TAG_STRING: Byte := 0x02
  const TAG_OID: Byte := 0x07
  const TAG_INT: Byte := 0x12

  /** Two's complement with the sign bit flipped, as an unsigned number. */
  function IntOrder(n: int): Bits
    requires -(TWO_63 as int) <= n < TWO_63
  {
    n + TWO_63
  }

  /** Negative doubles have every bit inverted, the others only the sign bit set. */
  function DoubleOrder(bits: Bits): Bits {
    if Negative(bits) then 0xFFFF_FFFF_FFFF_FFFF - bits else bits + TWO_63
  }

  function Encoded(id: Id): Result<seq<Byte>>
    requires Valid(id)
  {
    match id
    case Oid(bytes) => Ok([TAG_OID] + bytes)
    case Str(bytes) => Ok([TAG_STRING] + bytes)
    case Int32(n) => Ok([TAG_INT] + Bytes(IntOrder(n), 8))
    case Int64(n) => Ok([TAG_INT] + Bytes(IntOrder(n), 8))
    case Dbl(bits) =>
      if IsInteger(bits) then Ok([TAG_INT] + Bytes(IntOrder(Scaled(bits) / Unit()), 8))
      else Ok([TAG_DOUBLE] + Bytes(DoubleOrder(bits), 8))
    case Other => Err(TypeMismatch)
  }

  method EncodeId(id: Id) returns (r: Result<seq<Byte>>)
    requires Valid(id)
    ensures r == Encoded(id)
  {
    hide Bytes, Unit, Scaled;
    match id
    case Oid(bytes) => r := Ok([TAG_OID] + bytes);
    case Str(bytes) => r := Ok([TAG_STRING] + bytes);
    case Int32(n) =>
      var key := EncodeInt(n);
      r := Ok([TAG_INT] + key);
    case Int64(n) =>
      var key := EncodeInt(n);
      r := Ok([TAG_INT] + key);
    case Dbl(bits) =>
      if IsInteger(bits) {
        var key := EncodeInt(Scaled(bits) / Unit());
        r := Ok([TAG_INT] + key);
      } else {
        var key := EncodeDouble(bits);
        r := Ok([TAG_DOUBLE] + key);
      }
    case Other => r := Err(TypeMismatch);
  }

  method EncodeInt(n: int) returns (key: seq<Byte>)
    requires -(TWO_63 as int) <= n < TWO_63
    ensures key == Bytes(IntOrder(n), 8)
  {
    key := BigEndian(FlipSign(AsUnsigned(n)));
  }

  method EncodeDouble(bits: Bits) returns (key: seq<Byte>)
    ensures key == Bytes(DoubleOrder(bits), 8)
  {
    if bits >= TWO_63 {
      key := BigEndian(0xFFFF_FFFF_FFFF_FFFF - bits);
    } else {
      key := BigEndian(FlipSign(bits));
    }
  }

  function AsUnsigned(n: int): Bits
    requires -(TWO_63 as int) <= n < TWO_63
  {
    if n < 0 then n + 0x1_0000_0000_0000_0000 else n
  }

  function FlipSign(bits: Bits): Bits {
    if bits < TWO_63 then bits + TWO_63 else bits - TWO_63
  }

  function AsSigned(bits: Bits): int {
    if bits < TWO_63 then bits else bits - 0x1_0000_0000_0000_0000
  }

  function DoubleBits(order: Bits): Bits {
    if order >= TWO_63 then order - TWO_63 else 0xFFFF_FFFF_FFFF_FFFF - order
  }

  function Decoded(key: seq<Byte>): Result<Id> {
    if key == [] then Err(BadValue)
    else
      var payload := key[1..];
      if key[0] == TAG_OID then (if |payload| == 12 then Ok(Oid(payload)) else Err(BadValue))
      else if key[0] == TAG_STRING then Ok(Str(payload))
      else if |payload| != 8 then Err(BadValue)
      else
        BytesNumber(payload);
        Pow256Eight();
        if key[0] == TAG_INT then Ok(Int64(AsSigned(FlipSign(Number(payload)))))
        else if key[0] == TAG_DOUBLE then Ok(Dbl(DoubleBits(Number(payload))))
        else Err(BadValue)
  }

  method DecodeId(key: seq<Byte>) returns (r: Result<Id>)
    ensures r == Decoded(key)
  {
    if key == [] { return Err(BadValue); }
    var payload := key[1..];
    if key[0] == TAG_OID { return if |payload| == 12 then Ok(Oid(payload)) else Err(BadValue); }
    if key[0] == TAG_STRING { return Ok(Str(payload)); }
    if key[0] != TAG_INT && key[0] != TAG_DOUBLE { return Err(BadValue); }
    if |payload| != 8 { return Err(BadValue); }
    BytesNumber(payload);
    Pow256Eight();
    var bits := FromBigEndian(payload);
    return if key[0] == TAG_INT then Ok(Int64(AsSigned(FlipSign(bits)))) else Ok(Dbl(DoubleBits(bits)));
  }

  // ---------------------------------------------------------------- what the keys mean

  predicate IsNumber(id: Id) {
    id.Int32? || id.Int64? || id.Dbl?
  }

  /** A number's exact value in units of 2^-1074. */
  function Exact(id: Id): int
    requires IsNumber(id)
  {
    if id.Dbl? then Scaled(id.bits) else id.n * Unit()
  }

  predicate NaNId(id: Id) {
    id.Dbl? && IsNaN(id.bits)
  }

  /** The same id: the same bytes, exactly the same number, or the same NaN bit for bit. */
  predicate Same(a: Id, b: Id) {
    if NaNId(a) || NaNId(b) then a == b
    else if IsNumber(a) && IsNumber(b) then Exact(a) == Exact(b)
    else a == b
  }

  lemma BytesSame(a: Bits, b: Bits)
    ensures Bytes(a, 8) == Bytes(b, 8) <==> a == b
  {
    Pow256Eight();
    NumberBytes(a, 8);
    NumberBytes(b, 8);
    hide Bytes;
  }

  /** Doubles other than NaN and zero are equal exactly when their bits are. */
  lemma ScaledSame(a: Bits, b: Bits)
    requires Scaled(a) == Scaled(b) != 0
    ensures a == b
  {
    hide Magnitude, Unsigned;
    var m, n := Unsigned(a), Unsigned(b);
    if m < n { MagnitudeGrows(m, n); }
    if n < m { MagnitudeGrows(n, m); }
    SignAndSize(a, b);
  }

  lemma SignAndSize(a: Bits, b: Bits)
    requires Unsigned(a) == Unsigned(b) && Negative(a) == Negative(b)
    ensures a == b
  {
  }

  lemma ZeroIsInteger(bits: Bits)
    requires Scaled(bits) == 0 && !IsNaN(bits)
    ensures IsInteger(bits)
  {
    assert Unsigned(bits) < 2047 * TWO_52 by {
      if Unsigned(bits) >= 1 { MagnitudeGrows(0, Unsigned(bits)); }
    }
  }

  /** The integer a number stands for, when it is keyed as one. */
  function IntegerOf(id: Id): Option<int>
    requires Valid(id) && IsNumber(id)
  {
    if !id.Dbl? then Some(id.n) else if IsInteger(id.bits) then Some(Scaled(id.bits) / Unit()) else None
  }

  lemma IntegerExact(id: Id)
    requires Valid(id) && IsNumber(id) && IntegerOf(id).Some?
    ensures -(TWO_63 as int) <= IntegerOf(id).value < TWO_63
    ensures Exact(id) == IntegerOf(id).value * Unit()
    ensures Encoded(id) == Ok([TAG_INT] + Bytes(IntOrder(IntegerOf(id).value), 8))
  {
    hide Unit, Scaled, Bytes, IntOrder, DoubleOrder;
    if id.Dbl? { WholeDivision(Scaled(id.bits), Unit()); }
  }

  lemma WholeDivision(n: int, u: nat)
    requires 0 < u && n % u == 0
    ensures n == n / u * u
  {
  }

  lemma {:induction false} Stretch(x: nat, u: nat)
    requires x > 0
    ensures x * u >= u
  {
    if x > 1 {
      Stretch(x - 1, u);
      assert x * u == (x - 1) * u + u;
    }
  }

  lemma Apart(a: int, b: int, u: nat)
    requires a < b
    ensures a * u + u <= b * u
  {
    Stretch(b - a, u);
    assert (b - a) * u == b * u - a * u;
  }

  lemma SameInteger(a: int, b: int)
    ensures a * Unit() == b * Unit() <==> a == b
    ensures a * Unit() < b * Unit() <==> a < b
  {
    if a < b { Apart(a, b, Unit()); }
    if b < a { Apart(b, a, Unit()); }
    assert Unit() > 0;
    hide Unit;
  }

  lemma {:induction false} PowSplit(a: nat, b: nat)
    ensures Pow2(a + b) == Pow2(a) * Pow2(b)
  {
    if a > 0 { PowSplit(a - 1, b); }
  }

  lemma InfinityApart(bits: Bits)
    requires !IsFinite(bits) && !IsNaN(bits)
    ensures Scaled(bits) > TWO_63 * Unit() || Scaled(bits) < -(TWO_63 * Unit() as int)
  {
    hide Pow2, Unit;
    assert Unsigned(bits) == 2047 * TWO_52;
    assert Magnitude(2047 * TWO_52) == TWO_52 * Pow2(2046);
    hide Magnitude;
    PowApart(2046, 1074);
    UnitIs();
  }

  lemma UnitIs()
    ensures Unit() == Pow2(1074)
  {
    hide Pow2;
  }

  lemma PowApart(k: nat, j: nat)
    requires k >= j + 12
    ensures Pow2(k) >= 4096 * Pow2(j)
  {
    TwelveDoublings();
    hide Pow2;
    PowSplit(12, j);
    Pow2Grows(12 + j, k);
  }

  lemma TwelveDoublings()
    ensures Pow2(12) == 4096
  {
    assert Pow2(6) == 64;
    PowSplit(6, 6);
  }

  /** A double keyed as a double is not the value of any int64. */
  lemma NoInteger(bits: Bits, n: int)
    requires !IsInteger(bits) && !IsNaN(bits) && -(TWO_63 as int) <= n < TWO_63
    ensures Scaled(bits) != n * Unit()
  {
    if !IsFinite(bits) {
      InfinityApart(bits);
      Outside(n, Unit());
      hide Scaled, Unit;
    } else {
      Multiple(n, Unit());
      hide Scaled, Unit;
    }
  }

  lemma Outside(n: int, u: nat)
    requires -(TWO_63 as int) <= n < TWO_63
    ensures -(TWO_63 * u as int) <= n * u <= TWO_63 * u
  {
    Apart(n, TWO_63, u);
    if n > -(TWO_63 as int) { Apart(-(TWO_63 as int), n, u); }
  }

  lemma Multiple(n: int, u: nat)
    requires u > 0
    ensures n * u % u == 0 && n * u / u == n
  {
    var q, r := n * u / u, n * u % u;
    assert n * u == q * u + r && 0 <= r < u;
    if n > q { Apart(q, n, u); }
    if n < q { Apart(n, q, u); }
  }

  // ---------------------------------------------------------------- equality and order of keys

  /** Two ids have the same key exactly when they are the same id: an int32, an int64 and an
      integral double of one value share a key, and nothing else does. */
  lemma SameKey(a: Id, b: Id)
    requires Valid(a) && Valid(b) && !a.Other? && !b.Other?
    ensures Encoded(a) == Encoded(b) <==> Same(a, b)
  {
    assert Encoded(a).Ok? && Encoded(b).Ok?;
    if IsNumber(a) && IsNumber(b) {
      SameNumberKey(a, b);
    } else if !IsNumber(a) && !IsNumber(b) {
      assert Encoded(a).value[1..] == a.bytes && Encoded(b).value[1..] == b.bytes;
    } else {
      hide Bytes, Unit, Scaled;
      assert Encoded(a).value[0] != Encoded(b).value[0];
    }
  }

  lemma SameNumberKey(a: Id, b: Id)
    requires Valid(a) && Valid(b) && IsNumber(a) && IsNumber(b)
    ensures Encoded(a) == Encoded(b) <==> Same(a, b)
  {
    var x, y := IntegerOf(a), IntegerOf(b);
    if x.Some? { IntegerExact(a); }
    if y.Some? { IntegerExact(b); }
    if x.Some? && y.Some? {
      SameIntegerKey(a, b);
    } else if x.None? && y.None? {
      SameDoubleKey(a, b);
    } else {
      if x.Some? && !NaNId(b) { NoInteger(b.bits, x.value); }
      if y.Some? && !NaNId(a) { NoInteger(a.bits, y.value); }
      hide Bytes, Unit, Scaled;
      assert Encoded(a).value[0] != Encoded(b).value[0];
    }
  }

  lemma SameIntegerKey(a: Id, b: Id)
    requires Valid(a) && Valid(b) && IsNumber(a) && IsNumber(b) && IntegerOf(a).Some? && IntegerOf(b).Some?
    ensures Encoded(a) == Encoded(b) <==> Same(a, b)
  {
    IntegerExact(a);
    IntegerExact(b);
    var m, n := IntegerOf(a).value, IntegerOf(b).value;
    SameInteger(m, n);
    BytesSame(IntOrder(m), IntOrder(n));
    assert ([TAG_INT] + Bytes(IntOrder(m), 8))[1..] == Bytes(IntOrder(m), 8);
    assert ([TAG_INT] + Bytes(IntOrder(n), 8))[1..] == Bytes(IntOrder(n), 8);
    hide Bytes, Unit, Scaled, Encoded, IntegerOf;
  }

  lemma SameDoubleKey(a: Id, b: Id)
    requires a.Dbl? && b.Dbl? && !IsInteger(a.bits) && !IsInteger(b.bits)
    ensures Encoded(a) == Encoded(b) <==> Same(a, b)
  {
    BytesSame(DoubleOrder(a.bits), DoubleOrder(b.bits));
    assert ([TAG_DOUBLE] + Bytes(DoubleOrder(a.bits), 8))[1..] == Bytes(DoubleOrder(a.bits), 8);
    assert ([TAG_DOUBLE] + Bytes(DoubleOrder(b.bits), 8))[1..] == Bytes(DoubleOrder(b.bits), 8);
    if !NaNId(a) && Scaled(a.bits) == 0 { ZeroIsInteger(a.bits); }
    if !NaNId(a) && !NaNId(b) && Scaled(a.bits) == Scaled(b.bits) { ScaledSame(a.bits, b.bits); }
    hide Bytes, Scaled, Unit;
  }

  /** Byte-by-byte comparison, as the storage engine orders keys. */
  predicate Before(a: seq<Byte>, b: seq<Byte>) {
    if b == [] then false
    else if a == [] then true
    else a[0] < b[0] || (a[0] == b[0] && Before(a[1..], b[1..]))
  }

  lemma {:induction false} BytesBefore(a: nat, b: nat, width: nat)
    requires a < Pow256(width) && b < Pow256(width)
    ensures Before(Bytes(a, width), Bytes(b, width)) <==> a < b
  {
    if width > 0 {
      BytesBefore(a / 256, b / 256, width - 1);
      if a / 256 == b / 256 {
        BeforeSame(Bytes(a / 256, width - 1), [a % 256], [b % 256]);
      } else {
        NumberBytes(a / 256, width - 1);
        NumberBytes(b / 256, width - 1);
        BeforeEarlier(Bytes(a / 256, width - 1), Bytes(b / 256, width - 1), [a % 256], [b % 256]);
      }
    }
  }

  lemma {:induction false} BeforeSame(p: seq<Byte>, a: seq<Byte>, b: seq<Byte>)
    ensures Before(p + a, p + b) <==> Before(a, b)
  {
    if p == [] {
      assert p + a == a && p + b == b;
    } else {
      assert (p + a)[1..] == p[1..] + a && (p + b)[1..] == p[1..] + b;
      BeforeSame(p[1..], a, b);
    }
  }

  lemma {:induction false} BeforeEarlier(p: seq<Byte>, q: seq<Byte>, a: seq<Byte>, b: seq<Byte>)
    requires |p| == |q| && p != q
    ensures Before(p + a, q + b) <==> Before(p, q)
  {
    assert (p + a)[1..] == p[1..] + a && (q + b)[1..] == q[1..] + b;
    if p[0] == q[0] {
      assert p == [p[0]] + p[1..] && q == [q[0]] + q[1..];
      BeforeEarlier(p[1..], q[1..], a, b);
    }
  }

  /** Keys of one kind of number are ordered as the numbers are: the integers over all of int64,
      and the other doubles, infinities included. */
  lemma KeyOrder(a: Id, b: Id)
    requires Valid(a) && Valid(b) && IsNumber(a) && IsNumber(b) && !NaNId(a) && !NaNId(b)
    requires IntegerOf(a).Some? == IntegerOf(b).Some?
    ensures Before(Encoded(a).value, Encoded(b).value) <==> Exact(a) < Exact(b)
  {
    Pow256Eight();
    if IntegerOf(a).Some? {
      IntegerExact(a);
      IntegerExact(b);
      var m, n := IntegerOf(a).value, IntegerOf(b).value;
      SameInteger(m, n);
      BytesBefore(IntOrder(m), IntOrder(n), 8);
      BeforeSame([TAG_INT], Bytes(IntOrder(m), 8), Bytes(IntOrder(n), 8));
      hide Bytes, Unit, Scaled, Encoded, IntegerOf;
    } else {
      BytesBefore(DoubleOrder(a.bits), DoubleOrder(b.bits), 8);
      BeforeSame([TAG_DOUBLE], Bytes(DoubleOrder(a.bits), 8), Bytes(DoubleOrder(b.bits), 8));
      DoubleOrderIs(a.bits, b.bits);
      hide Bytes, Unit, Scaled;
    }
  }

  lemma DoubleOrderIs(a: Bits, b: Bits)
    requires !IsNaN(a) && !IsNaN(b) && !IsInteger(a) && !IsInteger(b)
    ensures DoubleOrder(a) < DoubleOrder(b) <==> Scaled(a) < Scaled(b)
  {
    SignAndMagnitude(a);
    SignAndMagnitude(b);
    NonZero(a);
    NonZero(b);
    var m, n := Unsigned(a), Unsigned(b);
    if m < n { MagnitudeGrows(m, n); }
    if n < m { MagnitudeGrows(n, m); }
    hide Magnitude, Unsigned, IsInteger, IsNaN, Scaled;
    assert DoubleOrder(a) < DoubleOrder(b) <==>
           if Negative(a) then !Negative(b) || n < m else !Negative(b) && m < n;
  }

  lemma SignAndMagnitude(bits: Bits)
    ensures bits == Unsigned(bits) + if Negative(bits) then TWO_63 else 0
    ensures Unsigned(bits) < TWO_63
    ensures Negative(bits) ==> Scaled(bits) == -(Magnitude(Unsigned(bits)) as int) <= 0
    ensures !Negative(bits) ==> Scaled(bits) == Magnitude(Unsigned(bits)) as int >= 0
  {
    hide Magnitude;
  }

  lemma NonZero(bits: Bits)
    requires !IsNaN(bits) && !IsInteger(bits)
    ensures Scaled(bits) != 0
  {
    if Scaled(bits) == 0 { ZeroIsInteger(bits); }
  }

  /** Decoding an encoded id gives the same id, and a double its very bits unless it is keyed as
      an integer. */
  lemma DecodeEncode(id: Id)
    requires Valid(id) && !id.Other?
    ensures var r := Decoded(Encoded(id).value);
            r.Ok? && Valid(r.value) && Same(r.value, id) && Encoded(r.value) == Encoded(id)
  {
    var key := Encoded(id).value;
    if IsNumber(id) && IntegerOf(id).Some? {
      IntegerExact(id);
      DecodeInteger(IntegerOf(id).value);
      SameKey(Int64(IntegerOf(id).value), id);
      hide Bytes, Unit, Scaled, Decoded;
    } else if id.Dbl? {
      DecodeDouble(id.bits);
      hide Bytes, Unit, Scaled, Decoded;
    } else {
      assert key[1..] == id.bytes;
      hide Bytes;
    }
  }

  lemma DecodeInteger(n: int)
    requires -(TWO_63 as int) <= n < TWO_63
    ensures Decoded([TAG_INT] + Bytes(IntOrder(n), 8)) == Ok(Int64(n))
  {
    Pow256Eight();
    NumberBytes(IntOrder(n), 8);
    assert ([TAG_INT] + Bytes(IntOrder(n), 8))[1..] == Bytes(IntOrder(n), 8);
    hide Bytes, Number;
  }

  lemma DecodeDouble(bits: Bits)
    ensures Decoded([TAG_DOUBLE] + Bytes(DoubleOrder(bits), 8)) == Ok(Dbl(bits))
  {
    Pow256Eight();
    NumberBytes(DoubleOrder(bits), 8);
    assert ([TAG_DOUBLE] + Bytes(DoubleOrder(bits), 8))[1..] == Bytes(DoubleOrder(bits), 8);
    hide Bytes, Number;
  }

  // ---------------------------------------------------------------- kinds of keys

  /** The kind an id is keyed under: an integral double goes with the integers. */
  datatype Kind = AsDouble | AsString | AsObjectId | AsInteger

  function KindOf(id: Id): Kind
    requires Valid(id) && !id.Other?
  {
    match id
    case Oid(_) => AsObjectId
    case Str(_) => AsString
    case Int32(_) => AsInteger
    case Int64(_) => AsInteger
    case Dbl(bits) => if IsInteger(bits) then AsInteger else AsDouble
  }

  /** BSON's own type codes, which start the keys. */
  function TypeCode(k: Kind): Byte {
    match k
    case AsDouble => 1
    case AsString => 2
    case AsObjectId => 7
    case AsInteger => 18
  }

  /** Every id of a kind that can be one has a key, and no other.  Keys of different kinds are ordered
      by type code, whatever the ids are. */
  lemma KindsInOrder(a: Id, b: Id)
    requires Valid(a) && Valid(b)
    ensures Encoded(a) == Err(TypeMismatch) <==> a.Other?
    ensures !a.Other? ==>
      Encoded(a).Ok? && Encoded(a).value != [] && Encoded(a).value[0] == TypeCode(KindOf(a))
    ensures !a.Other? && !b.Other? && KindOf(a) != KindOf(b) ==>
      Encoded(b).Ok? && (Before(Encoded(a).value, Encoded(b).value) <==> TypeCode(KindOf(a)) < TypeCode(KindOf(b)))
  {
    hide Bytes, Unit, Scaled, IsInteger, IntOrder, DoubleOrder;
  }

  /** A key is refused when it is empty, of an unknown kind, or of the wrong length for its kind;
      strings may have any length. */
  lemma DecodeRefuses(key: seq<Byte>)
    ensures Decoded(key).Ok? <==>
              key != [] && (key[0] == 2 || (key[0] == 7 && |key| == 13) || (key[0] in {1, 18} && |key| == 9))
    ensures Decoded(key).Ok? ==> Valid(Decoded(key).value) && !Decoded(key).value.Other?
  {
    hide Number;
  }
}
