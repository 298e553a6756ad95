/** OP_MSG framing: the bytes of a message, its sections, and replies. */
module Wire {
  type Byte = n: nat | n < 256

  type Bytes = seq<Byte>

  datatype Refusal = FailedToParse | NotImplemented

  datatype Result<+T> = Ok(value: T) | Err(refusal: Refusal)

  const TWO_31: nat := 0x8000_0000
  const TWO_32: nat := 0x1_0000_0000

  const OP_REPLY := 1
  const OP_QUERY := 2004
  const OP_MSG := 2013
  const HEADER_BYTES := 16

  // ---------------------------------------------------------------- integers

  predicate IsInt32(v: int) {
    -(TWO_31 as int) <= v < TWO_31
  }

  function Unsigned32(v: int): nat {
    v % TWO_32
  }

  function Signed32(u: nat): int {
    if u < TWO_31 then u else u - TWO_32
  }

  /** append_int32: the low byte first. */
  function Int32Bytes(v: int): (r: Bytes)
    ensures |r| == 4
  {
    var u := Unsigned32(v);
    [u % 256, u / 256 % 256, u / 0x1_0000 % 256, u / 0x100_0000 % 256]
  }

  function ReadInt32(p: Bytes): (v: int)
    requires |p| >= 4
    ensures IsInt32(v)
  {
    Signed32(Weighted(p[0], p[1], p[2], p[3]))
  }

  function Weighted(a: nat, b: nat, c: nat, d: nat): nat {
    a + 256 * b + 0x1_0000 * c + 0x100_0000 * d
  }

  lemma Digits(u: nat)
    requires u < TWO_32
    ensures u == u % 256 + 256 * (u / 256 % 256) + 0x1_0000 * (u / 0x1_0000 % 256) + 0x100_0000 * (u / 0x100_0000 % 256)
  {
    var a, b, c := u / 256, u / 0x1_0000, u / 0x100_0000;
    assert u == 256 * a + u % 256;
    assert b == a / 256 && a == 256 * b + a % 256;
    assert c == b / 256 && b == 256 * c + b % 256;
    assert c % 256 == c;
  }

  lemma ReadWritten(v: int, rest: Bytes)
    requires IsInt32(v)
    ensures ReadInt32(Int32Bytes(v) + rest) == v
  {
    var u, w := Unsigned32(v), Int32Bytes(v);
    assert u == if v < 0 then v + TWO_32 else v;
    Digits(u);
    assert Weighted(w[0], w[1], w[2], w[3]) == u;
    hide Int32Bytes, Unsigned32, Weighted;
    var all := w + rest;
    assert all[0] == w[0] && all[1] == w[1] && all[2] == w[2] && all[3] == w[3];
  }

  lemma LowDigit(x: nat, y: nat)
    requires x < 256
    ensures (x + 256 * y) % 256 == x && (x + 256 * y) / 256 == y
  {
  }

  lemma Halves(u: nat, k: nat, q: nat, r: nat)
    requires k in {0x1_0000, 0x100_0000} && u == k * q + r && r < k
    ensures u / k == q
  {
  }

  lemma WrittenRead(p: Bytes)
    requires |p| >= 4
    ensures Int32Bytes(ReadInt32(p)) == p[..4]
  {
    var a: nat, b: nat, c: nat, d: nat := p[0], p[1], p[2], p[3];
    var u := Weighted(a, b, c, d);
    assert Unsigned32(Signed32(u)) == u;
    LowDigit(a, b + 256 * c + 0x1_0000 * d);
    LowDigit(b, c + 256 * d);
    LowDigit(c, d);
    Halves(u, 0x1_0000, c + 256 * d, a + 256 * b);
    Halves(u, 0x100_0000, d, a + 256 * b + 0x1_0000 * c);
    hide Unsigned32, Signed32;
  }

  // ---------------------------------------------------------------- documents

  /** A BSON document: its own length first, a zero byte last. */
  predicate IsDocument(d: Bytes) {
    |d| >= 5 && ReadInt32(d) == |d| && d[|d| - 1] == 0
  }

  type Blob = d: Bytes | IsDocument(d) witness [5, 0, 0, 0, 0]

  function MakeDocument(elements: Bytes): (d: Bytes)
    ensures |elements| + 5 < TWO_31 ==> IsDocument(d)
  {
    var d := Int32Bytes(|elements| + 5) + (elements + [0]);
    assert |elements| + 5 < TWO_31 ==> ReadInt32(d) == |d| by {
      if |elements| + 5 < TWO_31 { ReadWritten(|elements| + 5, elements + [0]); }
    }
    d
  }

  function Elements(d: Blob): Bytes {
    d[4..|d| - 1]
  }

  function Decimal(n: nat): Bytes {
    (if n < 10 then [] else Decimal(n / 10)) + [48 + n % 10]
  }

  /** The elements of an array of documents, keyed "0", "1", … */
  function ArrayElements(docs: seq<Blob>): Bytes {
    if docs == [] then []
    else ArrayElements(docs[..|docs| - 1]) + [3] + Decimal(|docs| - 1) + [0] + docs[|docs| - 1]
  }

  /** One sequence as the array element it was lifted from. */
  function SequenceElement(name: Bytes, docs: seq<Blob>): Bytes {
    [4] + name + [0] + MakeDocument(ArrayElements(docs))
  }

  datatype Section = Body(doc: Blob) | Sequence(name: Bytes, docs: seq<Blob>)

  function FoldedElements(sequences: seq<Section>): Bytes
    requires forall s :: s in sequences ==> s.Sequence?
  {
    if sequences == [] then []
    else
      assert sequences[|sequences| - 1] in sequences;
      FoldedElements(sequences[..|sequences| - 1])
      + SequenceElement(sequences[|sequences| - 1].name, sequences[|sequences| - 1].docs)
  }

  /** The body with each sequence appended as an array field, in order. */
  function Folded(body: Blob, sequences: seq<Section>): Bytes
    requires forall s :: s in sequences ==> s.Sequence?
  {
    if sequences == [] then body else MakeDocument(Elements(body) + FoldedElements(sequences))
  }

  method ArrayOf(docs: seq<Blob>) returns (elements: Bytes)
    ensures elements == ArrayElements(docs)
  {
    elements := [];
    for i := 0 to |docs|
      invariant elements == ArrayElements(docs[..i])
    {
      assert docs[..i + 1][..i] == docs[..i];
      elements := elements + [3] + Decimal(i) + [0] + docs[i];
    }
    assert docs[..|docs|] == docs;
  }

  method FoldInSequences(body: Blob, sequences: seq<Section>) returns (merged: Bytes)
    requires sequences != [] && forall s :: s in sequences ==> s.Sequence?
    ensures merged == Folded(body, sequences)
  {
    hide ArrayElements, MakeDocument;
    var elements := Elements(body);
    for k := 0 to |sequences|
      invariant elements == Elements(body) + FoldedElements(sequences[..k])
    {
      assert sequences[k] in sequences && sequences[..k + 1][..k] == sequences[..k];
      var array_ := ArrayOf(sequences[k].docs);
      elements := elements + ([4] + sequences[k].name + [0] + MakeDocument(array_));
    }
    assert sequences[..|sequences|] == sequences;
    return MakeDocument(elements);
  }

  // ---------------------------------------------------------------- reading, as functions of the bytes left

  type Taken<T> = Result<(T, Bytes)>

  function TakeInt32(b: Bytes): Taken<int> {
    if |b| < 4 then Err(FailedToParse) else Ok((ReadInt32(b), b[4..]))
  }

  function TakeByte(b: Bytes): Taken<Byte> {
    if b == [] then Err(FailedToParse) else Ok((b[0], b[1..]))
  }

  function ZeroAt(b: Bytes): (n: nat)
    ensures n <= |b| && (n < |b| ==> b[n] == 0) && 0 !in b[..n]
  {
    if b == [] || b[0] == 0 then 0 else 1 + ZeroAt(b[1..])
  }

  function TakeCString(b: Bytes): Taken<Bytes> {
    var n := ZeroAt(b);
    if n == |b| then Err(FailedToParse) else Ok((b[..n], b[n + 1..]))
  }

  function TakeDocument(b: Bytes): (r: Taken<Bytes>)
    ensures r.Ok? ==> IsDocument(r.value.0) && |r.value.0| >= 5 && b == r.value.0 + r.value.1
  {
    if |b| < 4 then Err(FailedToParse)
    else
      var len := ReadInt32(b);
      if len < 5 || |b| < len || b[len - 1] != 0 then Err(FailedToParse) else Ok((b[..len], b[len..]))
  }

  /** Documents until exactly n bytes are used up. */
  function TakeDocuments(b: Bytes, n: int): (r: Taken<seq<Blob>>)
    ensures r.Ok? ==> |r.value.1| <= |b|
    decreases |b|
  {
    if n <= 0 then (if n == 0 then Ok(([], b)) else Err(FailedToParse))
    else
      match TakeDocument(b)
      case Err(e) => Err(e)
      case Ok((d, rest)) =>
        match TakeDocuments(rest, n - |d|)
        case Err(e) => Err(e)
        case Ok((ds, last)) => Ok(([d] + ds, last))
  }

  /** What is left to take, behind the documents taken so far, gives all there was to take. */
  predicate Resumes(all: Taken<seq<Blob>>, docs: seq<Blob>, left: Taken<seq<Blob>>) {
    match left
    case Err(e) => all == Err(e)
    case Ok((ds, rest)) => all == Ok((docs + ds, rest))
  }

  lemma NothingTaken(all: Taken<seq<Blob>>)
    ensures Resumes(all, [], all)
  {
    if all.Ok? { assert [] + all.value.0 == all.value.0; }
  }

  lemma OneTaken(all: Taken<seq<Blob>>, docs: seq<Blob>, b: Bytes, n: int)
    requires n > 0 && Resumes(all, docs, TakeDocuments(b, n))
    ensures match TakeDocument(b)
            case Err(e) => all == Err(e)
            case Ok((d, rest)) => Resumes(all, docs + [d], TakeDocuments(rest, n - |d|))
  {
    hide IsDocument;
    if TakeDocument(b).Ok? {
      var (d, rest) := TakeDocument(b).value;
      var more := TakeDocuments(rest, n - |d|);
      hide TakeDocument;
      if more.Ok? { assert docs + ([d] + more.value.0) == docs + [d] + more.value.0; }
    }
  }

  lemma AllTaken(all: Taken<seq<Blob>>, docs: seq<Blob>, b: Bytes, n: int)
    requires n <= 0 && Resumes(all, docs, TakeDocuments(b, n))
    ensures all == if n == 0 then Ok((docs, b)) else Err(FailedToParse)
  {
    hide TakeDocument;
    assert docs + [] == docs;
  }

  /** A sequence section behind its kind byte: its size, counting itself, its name, its documents. */
  function TakeSequence(b: Bytes): (r: Taken<Section>)
    ensures r.Ok? ==> r.value.0.Sequence? && |r.value.1| < |b|
  {
    match TakeInt32(b)
    case Err(e) => Err(e)
    case Ok((size, rest)) =>
      if size < 5 then Err(FailedToParse)
      else
        match TakeCString(rest)
        case Err(e) => Err(e)
        case Ok((name, docs)) =>
          match TakeDocuments(docs, size - 4 - |name| - 1)
          case Err(e) => Err(e)
          case Ok((ds, last)) => Ok((Sequence(name, ds), last))
  }

  function TakeSection(b: Bytes): (r: Taken<Section>)
    ensures r.Ok? ==> |r.value.1| < |b|
  {
    match TakeByte(b)
    case Err(e) => Err(e)
    case Ok((kind, rest)) =>
      if kind == 0 then
        match TakeDocument(rest)
        case Err(e) => Err(e)
        case Ok((d, last)) => Ok((Body(d), last))
      else if kind != 1 then Err(NotImplemented)
      else TakeSequence(rest)
  }

  function Bodies(sections: seq<Section>): seq<Section> {
    if sections == [] then []
    else (if sections[0].Body? then [sections[0]] else []) + Bodies(sections[1..])
  }

  function Sequences(sections: seq<Section>): (r: seq<Section>)
    ensures forall s :: s in r ==> s.Sequence?
  {
    if sections == [] then []
    else (if sections[0].Sequence? then [sections[0]] else []) + Sequences(sections[1..])
  }

  lemma {:induction false} BodiesAreBodies(sections: seq<Section>)
    ensures forall s :: s in Bodies(sections) ==> s.Body?
  {
    if sections != [] { BodiesAreBodies(sections[1..]); }
  }

  // ---------------------------------------------------------------- writing sections

  function Concatenated(docs: seq<Blob>): Bytes {
    if docs == [] then [] else docs[0] + Concatenated(docs[1..])
  }

  function SectionSize(s: Section): nat
    requires s.Sequence?
  {
    4 + |s.name| + 1 + |Concatenated(s.docs)|
  }

  /** What a sender can frame: a name without a zero byte, a size that fits. */
  predicate Framable(s: Section) {
    s.Sequence? ==> 0 !in s.name && SectionSize(s) < TWO_31
  }

  function SectionBytes(s: Section): Bytes {
    if s.Body? then [0] + s.doc
    else [1] + Int32Bytes(SectionSize(s)) + s.name + [0] + Concatenated(s.docs)
  }

  function AllSectionBytes(sections: seq<Section>): Bytes {
    if sections == [] then [] else SectionBytes(sections[0]) + AllSectionBytes(sections[1..])
  }

  // ---------------------------------------------------------------- reading what was written

  lemma {:induction false} ZeroFound(name: Bytes, rest: Bytes)
    requires 0 !in name
    ensures ZeroAt(name + [0] + rest) == |name|
  {
    var b := name + [0] + rest;
    if name != [] {
      assert b[1..] == name[1..] + [0] + rest;
      ZeroFound(name[1..], rest);
    }
  }

  lemma CStringFound(name: Bytes, rest: Bytes)
    requires 0 !in name
    ensures TakeCString(name + [0] + rest) == Ok((name, rest))
  {
    ZeroFound(name, rest);
    var b := name + [0] + rest;
    assert b[..|name|] == name && b[|name| + 1..] == rest;
  }

  lemma DocumentFound(d: Blob, rest: Bytes)
    ensures TakeDocument(d + rest) == Ok((d, rest))
  {
    var b := d + rest;
    assert b[0] == d[0] && b[1] == d[1] && b[2] == d[2] && b[3] == d[3];
    assert b[..|d|] == d && b[|d|..] == rest && b[|d| - 1] == d[|d| - 1];
  }

  lemma {:induction false} DocumentsFound(docs: seq<Blob>, rest: Bytes)
    ensures TakeDocuments(Concatenated(docs) + rest, |Concatenated(docs)|) == Ok((docs, rest))
    decreases |docs|
  {
    if docs == [] {
      assert Concatenated(docs) + rest == rest;
    } else {
      var tail := Concatenated(docs[1..]);
      DocumentFound(docs[0], tail + rest);
      assert Concatenated(docs) + rest == docs[0] + (tail + rest);
      DocumentsFound(docs[1..], rest);
      assert docs == [docs[0]] + docs[1..];
      hide TakeDocument;
    }
  }

  lemma Int32Found(v: int, rest: Bytes)
    requires IsInt32(v)
    ensures TakeInt32(Int32Bytes(v) + rest) == Ok((v, rest))
  {
    ReadWritten(v, rest);
    assert (Int32Bytes(v) + rest)[4..] == rest;
    hide Int32Bytes, ReadInt32;
  }

  lemma SectionFound(s: Section, rest: Bytes)
    requires Framable(s)
    ensures TakeSection(SectionBytes(s) + rest) == Ok((s, rest))
  {
    hide IsDocument, TakeDocument, TakeSequence, Int32Bytes, SectionSize, Concatenated;
    if s.Body? {
      DocumentFound(s.doc, rest);
      KindFirst(0, s.doc, rest);
    } else {
      SequenceFound(s, rest);
      var inner := Int32Bytes(SectionSize(s)) + s.name + [0] + Concatenated(s.docs);
      KindFirst(1, inner, rest);
      assert SectionBytes(s) == [1] + inner;
    }
    hide SectionBytes;
  }

  lemma KindFirst(kind: Byte, inner: Bytes, rest: Bytes)
    ensures TakeByte([kind] + inner + rest) == Ok((kind, inner + rest))
  {
    assert ([kind] + inner + rest)[1..] == inner + rest;
  }

  lemma SequenceFound(s: Section, rest: Bytes)
    requires s.Sequence? && Framable(s)
    ensures TakeSequence(Int32Bytes(SectionSize(s)) + s.name + [0] + Concatenated(s.docs) + rest) == Ok((s, rest))
  {
    var docs, size := Concatenated(s.docs), SectionSize(s);
    assert size == 4 + |s.name| + 1 + |docs| && size < TWO_31;
    hide IsDocument, TakeSequence, TakeInt32, TakeCString, TakeDocuments, Int32Bytes, Concatenated, SectionSize;
    var afterSize := s.name + [0] + (docs + rest);
    Int32Found(size, afterSize);
    CStringFound(s.name, docs + rest);
    DocumentsFound(s.docs, rest);
    SequenceSteps(Int32Bytes(size) + afterSize, size, afterSize, docs + rest, s, rest);
    Regroup(Int32Bytes(size), s.name, [0], docs, rest);
  }

  lemma Regroup(a: Bytes, b: Bytes, c: Bytes, d: Bytes, e: Bytes)
    ensures a + b + c + d + e == a + (b + c + (d + e))
  {
  }

  lemma SequenceSteps(b: Bytes, size: int, afterSize: Bytes, afterName: Bytes, s: Section, rest: Bytes)
    requires s.Sequence? && size >= 5 && TakeInt32(b) == Ok((size, afterSize))
    requires TakeCString(afterSize) == Ok((s.name, afterName))
    requires TakeDocuments(afterName, size - 4 - |s.name| - 1) == Ok((s.docs, rest))
    ensures TakeSequence(b) == Ok((s, rest))
  {
    hide IsDocument, TakeInt32, TakeCString, TakeDocuments;
  }

  // ---------------------------------------------------------------- the folded arrays read back

  /** The members of an array of documents, keyed from k on. */
  function TakeMembers(b: Bytes, k: nat): Result<seq<Blob>>
    decreases |b|
  {
    if b == [] then Ok([])
    else if b[0] != 3 then Err(FailedToParse)
    else
      match TakeCString(b[1..])
      case Err(e) => Err(e)
      case Ok((key, rest)) =>
        if key != Decimal(k) then Err(FailedToParse)
        else
          match TakeDocument(rest)
          case Err(e) => Err(e)
          case Ok((d, last)) =>
            match TakeMembers(last, k + 1)
            case Err(e) => Err(e)
            case Ok(ds) => Ok([d] + ds)
  }

  /** A run of fields, each a named array of documents. */
  function TakeArrays(b: Bytes): Result<seq<Section>>
    decreases |b|
  {
    if b == [] then Ok([])
    else if b[0] != 4 then Err(FailedToParse)
    else
      match TakeCString(b[1..])
      case Err(e) => Err(e)
      case Ok((name, rest)) =>
        match TakeDocument(rest)
        case Err(e) => Err(e)
        case Ok((array_, last)) =>
          match TakeMembers(Elements(array_), 0)
          case Err(e) => Err(e)
          case Ok(docs) =>
            match TakeArrays(last)
            case Err(e) => Err(e)
            case Ok(more) => Ok([Sequence(name, docs)] + more)
  }

  /** The elements of an array again, from the front. */
  function MembersFrom(docs: seq<Blob>, k: nat): Bytes {
    if docs == [] then [] else [3] + Decimal(k) + [0] + docs[0] + MembersFrom(docs[1..], k + 1)
  }

  lemma {:induction false} FrontToBack(docs: seq<Blob>, i: nat)
    requires i <= |docs|
    ensures ArrayElements(docs) == ArrayElements(docs[..i]) + MembersFrom(docs[i..], i)
    decreases |docs| - i
  {
    hide IsDocument, Decimal;
    if i == |docs| {
      assert docs[..i] == docs;
    } else {
      FrontToBack(docs, i + 1);
      assert docs[..i + 1][..i] == docs[..i] && docs[i..][1..] == docs[i + 1..];
      RegroupMember(ArrayElements(docs[..i]), [3], Decimal(i), [0], docs[i], MembersFrom(docs[i + 1..], i + 1));
    }
  }

  lemma RegroupMember(front: Bytes, a: Bytes, b: Bytes, c: Bytes, d: Bytes, rest: Bytes)
    ensures (front + a + b + c + d) + rest == front + (a + b + c + d + rest)
    ensures [] + a + b + c + d + rest == a + b + c + d + rest == a + (b + c + (d + rest))
  {
  }

  lemma {:induction false} DecimalHasNoZero(n: nat)
    ensures 0 !in Decimal(n)
  {
    if n >= 10 { DecimalHasNoZero(n / 10); }
  }

  lemma {:induction false} MembersFound(docs: seq<Blob>, k: nat)
    ensures TakeMembers(MembersFrom(docs, k), k) == Ok(docs)
    decreases |docs|
  {
    hide IsDocument, Decimal, TakeCString, TakeDocument;
    if docs != [] {
      var key, d, rest := Decimal(k), docs[0], MembersFrom(docs[1..], k + 1);
      DecimalHasNoZero(k);
      RegroupMember([], [3], key, [0], d, rest);
      CStringFound(key, d + rest);
      DocumentFound(d, rest);
      MembersFound(docs[1..], k + 1);
      var b := MembersFrom(docs, k);
      assert b[0] == 3 && b[1..] == key + [0] + (d + rest);
      assert docs == [d] + docs[1..];
      hide MembersFrom;
    }
  }

  lemma ElementsOfMade(elements: Bytes)
    requires |elements| + 5 < TWO_31
    ensures IsDocument(MakeDocument(elements)) && Elements(MakeDocument(elements)) == elements
  {
    hide IsDocument;
    assert MakeDocument(elements) == Int32Bytes(|elements| + 5) + (elements + [0]);
  }

  lemma FromTheFront(docs: seq<Blob>)
    ensures ArrayElements(docs) == MembersFrom(docs, 0)
  {
    FrontToBack(docs, 0);
    assert docs[..0] == [] && docs[0..] == docs;
    assert ArrayElements(docs[..0]) + MembersFrom(docs[0..], 0) == MembersFrom(docs, 0) by { hide MembersFrom, IsDocument; }
    hide ArrayElements, MembersFrom, IsDocument;
  }

  lemma ArrayFound(docs: seq<Blob>)
    requires |ArrayElements(docs)| + 5 < TWO_31
    ensures var array_ := MakeDocument(ArrayElements(docs));
            IsDocument(array_) && TakeMembers(Elements(array_), 0) == Ok(docs)
  {
    hide IsDocument, Elements, MakeDocument, ArrayElements, MembersFrom, TakeMembers;
    ElementsOfMade(ArrayElements(docs));
    FromTheFront(docs);
    MembersFound(docs, 0);
  }

  lemma ElementFound(name: Bytes, docs: seq<Blob>, rest: Bytes)
    requires 0 !in name && |ArrayElements(docs)| + 5 < TWO_31 && TakeArrays(rest).Ok?
    ensures TakeArrays(SequenceElement(name, docs) + rest) == Ok([Sequence(name, docs)] + TakeArrays(rest).value)
  {
    hide IsDocument, TakeCString, TakeDocument, Elements, MakeDocument, ArrayElements, TakeMembers;
    var array_ := MakeDocument(ArrayElements(docs));
    ArrayFound(docs);
    CStringFound(name, array_ + rest);
    DocumentFound(array_, rest);
    ElementSteps(SequenceElement(name, docs) + rest, name, array_, docs, rest) by {
      RegroupMember([], [4], name, [0], array_, rest);
      assert SequenceElement(name, docs) == [4] + name + [0] + array_;
    }
  }

  lemma ElementSteps(b: Bytes, name: Bytes, array_: Blob, docs: seq<Blob>, rest: Bytes)
    requires b == [4] + (name + [0] + (array_ + rest)) && TakeMembers(Elements(array_), 0) == Ok(docs)
    requires TakeCString(name + [0] + (array_ + rest)) == Ok((name, array_ + rest))
    requires TakeDocument(array_ + rest) == Ok((array_, rest)) && TakeArrays(rest).Ok?
    ensures TakeArrays(b) == Ok([Sequence(name, docs)] + TakeArrays(rest).value)
  {
    hide IsDocument, TakeCString, TakeDocument, Elements, TakeMembers;
    assert b[0] == 4 && b[1..] == name + [0] + (array_ + rest);
  }

  lemma FoldedLast(front: seq<Section>, last: Section)
    requires last.Sequence? && forall s :: s in front ==> s.Sequence?
    ensures FoldedElements(front + [last]) == FoldedElements(front) + SequenceElement(last.name, last.docs)
  {
    hide SequenceElement, IsDocument;
    assert (front + [last])[..|front|] == front;
  }

  lemma FoldedOne(only: Section)
    requires only.Sequence?
    ensures FoldedElements([]) == [] && FoldedElements([only]) == SequenceElement(only.name, only.docs)
  {
    FoldedLast([], only);
    hide SequenceElement;
    assert [] + [only] == [only];
    assert FoldedElements([]) + SequenceElement(only.name, only.docs) == SequenceElement(only.name, only.docs);
  }

  lemma {:induction false} FoldedFront(sequences: seq<Section>)
    requires sequences != [] && forall s :: s in sequences ==> s.Sequence?
    ensures FoldedElements(sequences) ==
            SequenceElement(sequences[0].name, sequences[0].docs) + FoldedElements(sequences[1..])
  {
    hide SequenceElement, IsDocument, FoldedElements;
    if |sequences| == 1 {
      FoldedOne(sequences[0]);
      assert sequences == [sequences[0]] && sequences[1..] == [];
    } else {
      var front, last := sequences[..|sequences| - 1], sequences[|sequences| - 1];
      FoldedFront(front);
      FoldedLast(front, last);
      FoldedLast(front[1..], last);
      assert sequences == front + [last] && sequences[1..] == front[1..] + [last];
      RegroupThree(SequenceElement(sequences[0].name, sequences[0].docs), FoldedElements(front[1..]),
                   SequenceElement(last.name, last.docs));
    }
  }

  lemma RegroupThree(a: Bytes, b: Bytes, c: Bytes)
    ensures (a + b) + c == a + (b + c)
  {
  }

  lemma ElementSize(name: Bytes, docs: seq<Blob>)
    ensures |SequenceElement(name, docs)| == |name| + 7 + |ArrayElements(docs)|
  {
    hide IsDocument, ArrayElements, Int32Bytes;
    var elements := ArrayElements(docs);
    assert MakeDocument(elements) == Int32Bytes(|elements| + 5) + (elements + [0]);
  }

  lemma {:induction false} ArraysFound(sequences: seq<Section>)
    requires forall s :: s in sequences ==> s.Sequence? && 0 !in s.name
    requires |FoldedElements(sequences)| + 5 < TWO_31
    ensures TakeArrays(FoldedElements(sequences)) == Ok(sequences)
  {
    hide IsDocument, ArrayElements, TakeMembers, TakeCString, TakeDocument, Elements, MakeDocument;
    if sequences != [] {
      var first, rest := sequences[0], sequences[1..];
      FoldedFront(sequences);
      ElementSize(first.name, first.docs);
      assert first in sequences;
      hide SequenceElement, FoldedElements, TakeArrays;
      ArraysFound(rest);
      ElementFound(first.name, first.docs, FoldedElements(rest));
      assert sequences == [first] + rest && Sequence(first.name, first.docs) == first;
    }
  }

  /** The folded command is a document that gives back the body's own fields and then, in order,
      every sequence as a field of its name holding its documents in order. */
  lemma FoldedReadsBack(body: Blob, sequences: seq<Section>)
    requires forall s :: s in sequences ==> s.Sequence? && 0 !in s.name
    requires |Elements(body)| + |FoldedElements(sequences)| + 5 < TWO_31
    ensures var folded := Folded(body, sequences); var own := |Elements(body)|;
            && IsDocument(folded) && own <= |Elements(folded)|
            && Elements(folded)[..own] == Elements(body) && TakeArrays(Elements(folded)[own..]) == Ok(sequences)
  {
    var own := Elements(body);
    ArraysFound(sequences);
    if sequences == [] {
      assert own[|own|..] == [] && own[..|own|] == own;
    } else {
      ElementsOfMade(own + FoldedElements(sequences));
    }
    hide IsDocument, Elements, TakeArrays, MakeDocument;
  }

  // ---------------------------------------------------------------- nothing else is read

  lemma {:induction false} DocumentsAreBytes(b: Bytes, n: int)
    requires TakeDocuments(b, n).Ok?
    ensures var (docs, rest) := TakeDocuments(b, n).value;
            n == |Concatenated(docs)| && b == Concatenated(docs) + rest
    decreases |b|
  {
    hide IsDocument, TakeDocument;
    if n > 0 {
      var (d, rest) := TakeDocument(b).value;
      DocumentsAreBytes(rest, n - |d|);
      var (ds, last) := TakeDocuments(rest, n - |d|).value;
      assert TakeDocuments(b, n) == Ok(([d] + ds, last));
      OneMoreDocument(d, ds);
      hide TakeDocuments, Concatenated;
      assert d + (Concatenated(ds) + last) == d + Concatenated(ds) + last;
    }
  }

  lemma OneMoreDocument(d: Blob, ds: seq<Blob>)
    ensures Concatenated([d] + ds) == d + Concatenated(ds)
  {
    hide IsDocument;
    assert ([d] + ds)[1..] == ds;
  }

  lemma SequenceIsBytes(b: Bytes)
    requires TakeSequence(b).Ok?
    ensures var (s, rest) := TakeSequence(b).value;
            Framable(s) && [1] + b == SectionBytes(s) + rest
  {
    hide IsDocument, TakeDocuments, Concatenated, Int32Bytes, ReadInt32;
    var (size, after) := TakeInt32(b).value;
    var (name, docs) := TakeCString(after).value;
    var n := size - 4 - |name| - 1;
    var (ds, rest) := TakeDocuments(docs, n).value;
    assert TakeSequence(b) == Ok((Sequence(name, ds), rest));
    DocumentsAreBytes(docs, n);
    WrittenRead(b);
    NameIsBytes(after);
    hide TakeSequence, TakeCString;
    SequenceBytes(b, size, name, ds, rest);
  }

  lemma NameIsBytes(b: Bytes)
    requires TakeCString(b).Ok?
    ensures var (name, rest) := TakeCString(b).value;
            0 !in name && b == name + [0] + rest
  {
  }

  lemma SequenceBytes(b: Bytes, size: int, name: Bytes, ds: seq<Blob>, rest: Bytes)
    requires |b| >= 4 && IsInt32(size) && Int32Bytes(size) == b[..4] && 0 !in name
    requires size == 4 + |name| + 1 + |Concatenated(ds)|
    requires b[4..] == name + [0] + (Concatenated(ds) + rest)
    ensures Framable(Sequence(name, ds)) && [1] + b == SectionBytes(Sequence(name, ds)) + rest
  {
    hide IsDocument, Concatenated, Int32Bytes;
    assert b == b[..4] + b[4..];
    var docs := Concatenated(ds);
    assert SectionBytes(Sequence(name, ds)) == [1] + Int32Bytes(size) + name + [0] + docs;
    hide SectionBytes;
    assert [1] + (b[..4] + (name + [0] + (docs + rest))) == [1] + b[..4] + name + [0] + docs + rest;
  }

  lemma SectionIsBytes(b: Bytes)
    requires TakeSection(b).Ok?
    ensures var (s, rest) := TakeSection(b).value;
            Framable(s) && b == SectionBytes(s) + rest
  {
    hide IsDocument, TakeDocument, TakeSequence;
    assert b == [b[0]] + b[1..];
    if b[0] == 1 {
      SequenceIsBytes(b[1..]);
    } else {
      var (d, last) := TakeDocument(b[1..]).value;
      assert [0] + (d + last) == [0] + d + last;
    }
  }

  // ---------------------------------------------------------------- requests and replies

  datatype Header = Header(messageLength: int, requestId: int, responseTo: int, opCode: int)

  datatype Request = Request(header: Header, body: Bytes, legacyQuery: bool)

  function ParsedHeader(raw: Bytes): Header
    requires |raw| >= HEADER_BYTES
  {
    Header(ReadInt32(raw), ReadInt32(raw[4..]), ReadInt32(raw[8..]), ReadInt32(raw[12..]))
  }

  /** Of the low 16 flag bits only checksumPresent and moreToCome are understood. */
  predicate KnownFlags(flags: int) {
    flags % 0x1_0000 / 4 == 0
  }

  predicate HasChecksum(flags: int) {
    flags % 2 == 1
  }

  /** The command document of a message: its one body with its sequences folded in. */
  function Command(sections: seq<Section>): Result<Bytes> {
    BodiesAreBodies(sections);
    if |Bodies(sections)| != 1 then Err(FailedToParse)
    else
      assert Bodies(sections)[0] in Bodies(sections);
      Ok(Folded(Bodies(sections)[0].doc, Sequences(sections)))
  }

  function ParsedMsg(b: Bytes): Result<Bytes> {
    match TakeInt32(b)
    case Err(e) => Err(e)
    case Ok((flags, rest)) =>
      if !KnownFlags(flags) then Err(FailedToParse)
      else if HasChecksum(flags) && |rest| < 4 then Err(FailedToParse)
      else SectionsCommand(if HasChecksum(flags) then rest[..|rest| - 4] else rest, [])
  }

  /** Sections one after another, after those in done: a second body is refused before it is read. */
  function SectionsCommand(b: Bytes, done: seq<Section>): Result<Bytes>
    decreases |b|
  {
    if b == [] then Command(done)
    else if b[0] == 0 && Bodies(done) != [] then Err(FailedToParse)
    else
      match TakeSection(b)
      case Err(e) => Err(e)
      case Ok((s, rest)) => SectionsCommand(rest, done + [s])
  }

  function ParsedQuery(b: Bytes): Result<Bytes> {
    match TakeInt32(b)
    case Err(e) => Err(e)
    case Ok((_, afterFlags)) =>
      match TakeCString(afterFlags)
      case Err(e) => Err(e)
      case Ok((_, afterName)) =>
        if |afterName| < 8 then Err(FailedToParse)
        else
          match TakeDocument(afterName[8..])
          case Err(e) => Err(e)
          case Ok((d, _)) => Ok(d)
  }

  function ParsedRequest(raw: Bytes): Result<Request>
    requires |raw| >= HEADER_BYTES
  {
    var header, rest := ParsedHeader(raw), raw[HEADER_BYTES..];
    if header.opCode == OP_MSG then
      match ParsedMsg(rest)
      case Err(e) => Err(e)
      case Ok(body) => Ok(Request(header, body, false))
    else if header.opCode == OP_QUERY then
      match ParsedQuery(rest)
      case Err(e) => Err(e)
      case Ok(body) => Ok(Request(header, body, true))
    else Err(NotImplemented)
  }

  lemma BodiesAppend(a: seq<Section>, b: seq<Section>)
    ensures Bodies(a + b) == Bodies(a) + Bodies(b)
    ensures Sequences(a + b) == Sequences(a) + Sequences(b)
  {
    BodiesJoin(a, b);
    SequencesJoin(a, b);
  }

  lemma RegroupSections(a: seq<Section>, b: seq<Section>, c: seq<Section>)
    ensures a + (b + c) == (a + b) + c
  {
  }

  lemma {:induction false} BodiesJoin(a: seq<Section>, b: seq<Section>)
    ensures Bodies(a + b) == Bodies(a) + Bodies(b)
  {
    hide IsDocument, Sequences;
    if a == [] {
      assert a + b == b;
    } else {
      var head := if a[0].Body? then [a[0]] else [];
      assert (a + b)[0] == a[0] && (a + b)[1..] == a[1..] + b;
      assert Bodies(a + b) == head + Bodies(a[1..] + b) && Bodies(a) == head + Bodies(a[1..]);
      hide Bodies;
      BodiesJoin(a[1..], b);
      RegroupSections(head, Bodies(a[1..]), Bodies(b));
    }
  }

  lemma {:induction false} SequencesJoin(a: seq<Section>, b: seq<Section>)
    ensures Sequences(a + b) == Sequences(a) + Sequences(b)
  {
    hide IsDocument, Bodies;
    if a == [] {
      assert a + b == b;
    } else {
      var head := if a[0].Sequence? then [a[0]] else [];
      assert (a + b)[0] == a[0] && (a + b)[1..] == a[1..] + b;
      assert Sequences(a + b) == head + Sequences(a[1..] + b) && Sequences(a) == head + Sequences(a[1..]);
      hide Sequences;
      SequencesJoin(a[1..], b);
      RegroupSections(head, Sequences(a[1..]), Sequences(b));
    }
  }

  lemma {:induction false} SectionsRead(sections: seq<Section>, done: seq<Section>)
    requires forall s :: s in sections ==> Framable(s)
    ensures SectionsCommand(AllSectionBytes(sections), done) == Command(done + sections)
    decreases |sections|
  {
    hide IsDocument, TakeSection, Framable, Command, SectionBytes;
    if sections == [] {
      assert done + sections == done;
    } else {
      var first, rest := sections[0], sections[1..];
      assert first in sections && sections == [first] + rest && done + sections == done + [first] + rest;
      var b := AllSectionBytes(sections);
      assert b == SectionBytes(first) + AllSectionBytes(rest);
      SectionFound(first, AllSectionBytes(rest));
      SectionKind(first);
      SectionsRead(rest, done + [first]);
      BodiesAppend(done, sections);
      TooMany(done + sections);
      assert first.Body? ==> |Bodies(sections)| >= 1;
      hide AllSectionBytes;
    }
  }

  lemma SectionKind(s: Section)
    ensures SectionBytes(s) != [] && SectionBytes(s)[0] == if s.Body? then 0 else 1
  {
    hide IsDocument, Int32Bytes, Concatenated, SectionSize;
  }

  lemma TooMany(sections: seq<Section>)
    ensures |Bodies(sections)| > 1 ==> Command(sections) == Err(FailedToParse)
  {
  }

  /** An OP_MSG as a client frames it, with a checksum behind it if the flags say so. */
  function MessageBytes(header: Bytes, flags: int, sections: seq<Section>, checksum: Bytes): Bytes {
    header + Int32Bytes(flags) + AllSectionBytes(sections) + checksum
  }

  predicate FramedMsg(header: Bytes, flags: int, sections: seq<Section>, checksum: Bytes) {
    |header| == HEADER_BYTES && ParsedHeader(header).opCode == OP_MSG && IsInt32(flags) &&
    (forall s :: s in sections ==> Framable(s)) && |checksum| == if HasChecksum(flags) then 4 else 0
  }

  lemma HeaderFirst(header: Bytes, rest: Bytes)
    requires |header| == HEADER_BYTES
    ensures ParsedHeader(header + rest) == ParsedHeader(header) && (header + rest)[HEADER_BYTES..] == rest
  {
    var raw := header + rest;
    assert forall k :: 0 <= k < 16 ==> raw[k] == header[k];
  }

  /** Any framing of one body and any sequences, in any order, parses to the body with every
      sequence appended as an array in order; no body, or two, and it is refused. */
  lemma MessageParses(header: Bytes, flags: int, sections: seq<Section>, checksum: Bytes)
    requires FramedMsg(header, flags, sections, checksum)
    ensures |Bodies(sections)| == 1 ==> Bodies(sections)[0].Body?
    ensures ParsedRequest(MessageBytes(header, flags, sections, checksum)) ==
            if !KnownFlags(flags) || |Bodies(sections)| != 1 then Err(FailedToParse)
            else Ok(Request(ParsedHeader(header), Folded(Bodies(sections)[0].doc, Sequences(sections)), false))
  {
    hide IsDocument, AllSectionBytes, ParsedHeader, Int32Bytes, Framable, ParsedMsg, Command;
    var b := AllSectionBytes(sections);
    assert MessageBytes(header, flags, sections, checksum) == header + (Int32Bytes(flags) + (b + checksum));
    HeaderFirst(header, Int32Bytes(flags) + (b + checksum));
    MsgParses(flags, sections, checksum);
    CommandOfBodies(sections);
  }

  lemma MsgParses(flags: int, sections: seq<Section>, checksum: Bytes)
    requires IsInt32(flags) && (forall s :: s in sections ==> Framable(s))
    requires |checksum| == if HasChecksum(flags) then 4 else 0
    ensures ParsedMsg(Int32Bytes(flags) + (AllSectionBytes(sections) + checksum)) ==
            if KnownFlags(flags) then Command(sections) else Err(FailedToParse)
  {
    hide IsDocument, AllSectionBytes, Int32Bytes, Framable, Command, SectionsCommand, TakeInt32;
    var b := AllSectionBytes(sections);
    Int32Found(flags, b + checksum);
    assert (b + checksum)[..|b|] == b && b + [] == b;
    SectionsRead(sections, []);
    assert [] + sections == sections;
  }

  lemma CommandOfBodies(sections: seq<Section>)
    ensures |Bodies(sections)| == 1 ==> Bodies(sections)[0].Body?
    ensures Command(sections) == if |Bodies(sections)| == 1
                                 then Ok(Folded(Bodies(sections)[0].doc, Sequences(sections)))
                                 else Err(FailedToParse)
  {
    hide IsDocument, Folded;
    BodiesAreBodies(sections);
    if |Bodies(sections)| == 1 { assert Bodies(sections)[0] in Bodies(sections); }
  }

  /** Nothing but such framings is accepted. */
  lemma AcceptsOnlyMessages(raw: Bytes) returns (flags: int, sections: seq<Section>, checksum: Bytes)
    requires |raw| >= HEADER_BYTES && ParsedRequest(raw).Ok? && !ParsedRequest(raw).value.legacyQuery
    ensures FramedMsg(raw[..HEADER_BYTES], flags, sections, checksum) && KnownFlags(flags)
    ensures raw == MessageBytes(raw[..HEADER_BYTES], flags, sections, checksum) && |Bodies(sections)| == 1
  {
    hide IsDocument, ReadInt32, Int32Bytes, Framable, AllSectionBytes, SectionsCommand;
    var b := raw[HEADER_BYTES..];
    flags := TakeInt32(b).value.0;
    var rest := TakeInt32(b).value.1;
    WrittenRead(b);
    checksum := if HasChecksum(flags) then rest[|rest| - 4..] else [];
    var body := if HasChecksum(flags) then rest[..|rest| - 4] else rest;
    sections := AcceptsOnlySections(body, []);
    HeaderFirst(raw[..HEADER_BYTES], b);
    assert raw == raw[..HEADER_BYTES] + b && b == b[..4] + rest && rest == body + checksum;
    assert [] + sections == sections;
    BodiesOfCommand(sections);
  }

  lemma BodiesOfCommand(sections: seq<Section>)
    requires Command(sections).Ok?
    ensures |Bodies(sections)| == 1
  {
  }

  lemma {:induction false} AcceptsOnlySections(b: Bytes, done: seq<Section>) returns (sections: seq<Section>)
    requires SectionsCommand(b, done).Ok?
    ensures AllSectionBytes(sections) == b && Command(done + sections).Ok?
    ensures forall s :: s in sections ==> Framable(s)
    decreases |b|
  {
    hide IsDocument, TakeSection, SectionBytes, Framable, Command;
    if b == [] {
      sections := [];
      assert done + [] == done;
    } else {
      var (s, rest) := TakeSection(b).value;
      SectionIsBytes(b);
      var more := AcceptsOnlySections(rest, done + [s]);
      sections := [s] + more;
      assert sections[1..] == more && done + sections == done + [s] + more;
    }
  }

  // ---------------------------------------------------------------- the cursor

  /** Reads are checked against the end of the message, and the position never passes it. */
  class Cursor {
    const data: Bytes
    var size: nat
    var at: nat

    ghost predicate Valid()
      reads this
    {
      at <= size <= |data|
    }

    function Left(): Bytes
      requires Valid()
      reads this
    {
      data[at..size]
    }

    constructor (data: Bytes)
      ensures Valid() && this.data == data && Left() == data && at == 0
    {
      this.data, size, at := data, |data|, 0;
    }

    method Int32() returns (r: Result<int>)
      requires Valid()
      modifies this`at
      ensures Valid()
      ensures match TakeInt32(old(Left()))
              case Err(e) => r == Err(e) && at == old(at)
              case Ok((v, rest)) => r == Ok(v) && Left() == rest && at == old(at) + 4
    {
      if size - at < 4 { return Err(FailedToParse); }
      var v := ReadInt32(data[at..size]);
      at := at + 4;
      return Ok(v);
    }

    method TakeKind() returns (r: Result<Byte>)
      requires Valid()
      modifies this`at
      ensures Valid()
      ensures match TakeByte(old(Left()))
              case Err(e) => r == Err(e) && at == old(at)
              case Ok((v, rest)) => r == Ok(v) && Left() == rest && at == old(at) + 1
    {
      if size - at < 1 { return Err(FailedToParse); }
      at := at + 1;
      return Ok(data[at - 1]);
    }

    method CString() returns (r: Result<Bytes>)
      requires Valid()
      modifies this`at
      ensures Valid()
      ensures match TakeCString(old(Left()))
              case Err(e) => r == Err(e) && at == old(at)
              case Ok((v, rest)) => r == Ok(v) && Left() == rest && at == old(at) + |v| + 1
    {
      var end := at;
      while end < size && data[end] != 0
        invariant at <= end <= size
        invariant ZeroAt(Left()) == end - at + ZeroAt(data[end..size])
      {
        assert data[end..size][1..] == data[end + 1..size];
        end := end + 1;
      }
      if end >= size { return Err(FailedToParse); }
      var s := data[at..end];
      assert s == Left()[..end - at] && data[end + 1..size] == Left()[end - at + 1..];
      at := end + 1;
      return Ok(s);
    }

    method Document() returns (r: Result<Bytes>)
      requires Valid()
      modifies this`at
      ensures Valid()
      ensures match TakeDocument(old(Left()))
              case Err(e) => r == Err(e) && at == old(at)
              case Ok((d, rest)) => r == Ok(d) && Left() == rest && at == old(at) + |d|
    {
      if size - at < 4 { return Err(FailedToParse); }
      var len := ReadInt32(data[at..size]);
      if len < 5 { return Err(FailedToParse); }
      if size - at < len { return Err(FailedToParse); }
      var doc := data[at..at + len];
      assert doc == Left()[..len] && data[at + len..size] == Left()[len..];
      if doc[len - 1] != 0 { return Err(FailedToParse); }
      at := at + len;
      return Ok(doc);
    }

    method Trim(n: nat) returns (ok: bool)
      requires Valid()
      modifies this`size
      ensures Valid() && ok == (|old(Left())| >= n)
      ensures Left() == if ok then old(Left())[..|old(Left())| - n] else old(Left())
    {
      ok := size - at >= n;
      if ok { size := size - n; }
    }

    /** A sequence section, behind its kind byte. */
    method SequenceSection() returns (r: Result<Section>)
      requires Valid()
      modifies this`at
      ensures Valid()
      ensures match TakeSequence(old(Left()))
              case Err(e) => r == Err(e)
              case Ok((s, rest)) => r == Ok(s) && Left() == rest
    {
      hide IsDocument, TakeDocument, TakeCString, TakeDocuments, Resumes;
      var start := at;
      var sectionSize := Int32();
      if sectionSize.Err? { return Err(sectionSize.refusal); }
      if sectionSize.value < 5 { return Err(FailedToParse); }
      var end := start + sectionSize.value;
      var name := CString();
      if name.Err? { return Err(name.refusal); }
      var docs: seq<Blob> := [];
      ghost var all := TakeDocuments(Left(), end - at);
      NothingTaken(all);
      while at < end
        invariant Valid()
        invariant Resumes(all, docs, TakeDocuments(Left(), end - at))
        decreases size - at
      {
        OneTaken(all, docs, Left(), end - at);
        var d := Document();
        if d.Err? { return Err(d.refusal); }
        docs := docs + [d.value];
      }
      AllTaken(all, docs, Left(), end - at);
      if at != end { return Err(FailedToParse); }
      return Ok(Sequence(name.value, docs));
    }
  }

  /** The sections of an OP_MSG: bodies and sequences are kept apart as they come. */
  lemma NoSections()
    ensures Bodies([]) == [] && Sequences([]) == []
  {
  }

  lemma OneSection(s: Section)
    ensures Bodies([s]) == (if s.Body? then [s] else []) && Sequences([s]) == (if s.Sequence? then [s] else [])
  {
    assert [s][1..] == [];
    NoSections();
  }

  method ParseSections(cursor: Cursor) returns (r: Result<Bytes>)
    requires cursor.Valid()
    modifies cursor`at
    ensures cursor.Valid()
    ensures r == SectionsCommand(old(cursor.Left()), [])
  {
    hide IsDocument, TakeDocument, TakeSequence, Command, Bodies, Sequences;
    NoSections();
    ghost var all := cursor.Left();
    var body: seq<Blob> := [];
    var sequences: seq<Section> := [];
    ghost var done: seq<Section> := [];
    while cursor.size - cursor.at > 0
      invariant cursor.Valid()
      invariant sequences == Sequences(done) && |body| <= 1
      invariant Bodies(done) == if body == [] then [] else [Body(body[0])]
      invariant SectionsCommand(all, []) == SectionsCommand(cursor.Left(), done)
      decreases cursor.size - cursor.at
    {
      var kind := cursor.TakeKind();
      if kind.value == 0 {
        if body != [] { return Err(FailedToParse); }
        var d := cursor.Document();
        if d.Err? { return Err(d.refusal); }
        body := [d.value];
        BodiesAppend(done, [Body(d.value)]);
        OneSection(Body(d.value));
        done := done + [Body(d.value)];
        continue;
      }
      if kind.value != 1 { return Err(NotImplemented); }
      var s := cursor.SequenceSection();
      if s.Err? { return Err(s.refusal); }
      sequences := sequences + [s.value];
      BodiesAppend(done, [s.value]);
      OneSection(s.value);
      done := done + [s.value];
    }
    CommandOfBodies(done);
    if body == [] { return Err(FailedToParse); }
    if sequences == [] { return Ok(body[0]); }
    var folded := FoldInSequences(body[0], sequences);
    return Ok(folded);
  }

  method ParseRequest(raw: Bytes) returns (r: Result<Request>)
    requires |raw| >= HEADER_BYTES
    ensures r == ParsedRequest(raw)
  {
    hide IsDocument, TakeDocument, TakeCString, SectionsCommand, ReadInt32;
    var header := ParsedHeader(raw);
    var cursor := new Cursor(raw[HEADER_BYTES..]);
    if header.opCode == OP_MSG {
      var flags := cursor.Int32();
      if flags.Err? { return Err(flags.refusal); }
      if !KnownFlags(flags.value) { return Err(FailedToParse); }
      if HasChecksum(flags.value) {
        var ok := cursor.Trim(4);
        if !ok { return Err(FailedToParse); }
      }
      var body := ParseSections(cursor);
      return if body.Err? then Err(body.refusal) else Ok(Request(header, body.value, false));
    }
    if header.opCode == OP_QUERY {
      var flags := cursor.Int32();
      if flags.Err? { return Err(flags.refusal); }
      var ns := cursor.CString();
      if ns.Err? { return Err(ns.refusal); }
      ghost var afterName := cursor.Left();
      var toSkip := cursor.Int32();
      if toSkip.Err? { return Err(toSkip.refusal); }
      var toReturn := cursor.Int32();
      if toReturn.Err? { return Err(toReturn.refusal); }
      assert cursor.Left() == afterName[8..];
      var doc := cursor.Document();
      return if doc.Err? then Err(doc.refusal) else Ok(Request(header, doc.value, true));
    }
    return Err(NotImplemented);
  }

  // ---------------------------------------------------------------- replies

  /** The fields of a reply between its length and its document. */
  function ReplyFields(req: Request, requestId: int): Bytes {
    Int32Bytes(requestId) + Int32Bytes(req.header.requestId) +
    if req.legacyQuery then
      Int32Bytes(OP_REPLY) + Int32Bytes(0) + Int32Bytes(0) + Int32Bytes(0) + Int32Bytes(0) + Int32Bytes(1)
    else Int32Bytes(OP_MSG) + Int32Bytes(0) + [0]
  }

  /** encode_reply: the length is patched in once the whole message is there. */
  method EncodeReply(req: Request, requestId: int, body: Blob) returns (out: Bytes)
    ensures out == Int32Bytes(4 + |ReplyFields(req, requestId)| + |body|) + ReplyFields(req, requestId) + body
  {
    hide IsDocument;
    out := StartReply(req, requestId);
    hide ReplyFields;
    out := out + body;
    var total := Int32Bytes(|out|);
    hide Int32Bytes;
    out := out[0 := total[0]][1 := total[1]][2 := total[2]][3 := total[3]];
    assert out == total + (ReplyFields(req, requestId) + body);
  }

  method StartReply(req: Request, requestId: int) returns (out: Bytes)
    ensures out == [0, 0, 0, 0] + ReplyFields(req, requestId)
  {
    hide Int32Bytes;
    out := [0, 0, 0, 0];
    out := out + Int32Bytes(requestId);
    out := out + Int32Bytes(req.header.requestId);
    if req.legacyQuery {
      out := out + Int32Bytes(OP_REPLY) + Int32Bytes(0);
      out := out + Int32Bytes(0) + Int32Bytes(0);
      out := out + Int32Bytes(0) + Int32Bytes(1);
    } else {
      out := out + Int32Bytes(OP_MSG) + Int32Bytes(0) + [0];
    }
  }

  /** A reply to any request but a legacy one is a message that parses back to its document, names
      the request it answers, and is as long as it says. */
  lemma ReplyParses(req: Request, requestId: int, body: Blob, out: Bytes)
    requires !req.legacyQuery && IsInt32(requestId) && IsInt32(req.header.requestId) && |body| + 21 < TWO_31
    requires out == Int32Bytes(4 + |ReplyFields(req, requestId)| + |body|) + ReplyFields(req, requestId) + body
    ensures |out| >= HEADER_BYTES
    ensures ParsedRequest(out) == Ok(Request(Header(|out|, requestId, req.header.requestId, OP_MSG), body, false))
  {
    hide IsDocument;
    var header := Int32Bytes(|out|) + Int32Bytes(requestId) + Int32Bytes(req.header.requestId) + Int32Bytes(OP_MSG);
    assert out == header + Int32Bytes(0) + ([0] + body) + [] by { hide Int32Bytes; }
    HeaderLayout(|out|, requestId, req.header.requestId, OP_MSG, []);
    assert header + [] == header;
    assert [Body(body)][1..] == [] && Bodies([Body(body)]) == [Body(body)] && Sequences([Body(body)]) == [];
    assert AllSectionBytes([Body(body)]) == [0] + body;
    hide Int32Bytes, ParsedHeader, Bodies, Sequences, AllSectionBytes, ParsedRequest;
    MessageParses(header, 0, [Body(body)], []);
  }

  // ---------------------------------------------------------------- layouts, byte by byte

  /** An int32 is written low byte first, in two's complement. */
  lemma LittleEndian(v: int)
    requires IsInt32(v)
    ensures var p := Int32Bytes(v);
            p[0] as int + 256 * p[1] as int + 0x1_0000 * p[2] as int + 0x100_0000 * p[3] as int ==
              if v < 0 then v + TWO_32 else v
  {
    Digits(Unsigned32(v));
  }

  /** A header is its four integers in this order. */
  lemma HeaderLayout(length: int, requestId: int, responseTo: int, opCode: int, rest: Bytes)
    requires IsInt32(length) && IsInt32(requestId) && IsInt32(responseTo) && IsInt32(opCode)
    ensures var raw := Int32Bytes(length) + Int32Bytes(requestId) + Int32Bytes(responseTo) + Int32Bytes(opCode) + rest;
            |raw| >= HEADER_BYTES && ParsedHeader(raw) == Header(length, requestId, responseTo, opCode)
            && raw[HEADER_BYTES..] == rest
  {
    var a, b, c, d := Int32Bytes(length), Int32Bytes(requestId), Int32Bytes(responseTo), Int32Bytes(opCode);
    ReadWritten(length, b + c + d + rest);
    ReadWritten(requestId, c + d + rest);
    ReadWritten(responseTo, d + rest);
    ReadWritten(opCode, rest);
    hide Int32Bytes, ReadInt32;
    HeaderParts(a, b, c, d, rest);
  }

  lemma HeaderParts(a: Bytes, b: Bytes, c: Bytes, d: Bytes, rest: Bytes)
    requires |a| == |b| == |c| == |d| == 4
    ensures var raw := a + b + c + d + rest;
            raw == a + (b + c + d + rest) && raw[4..] == b + (c + d + rest) && raw[8..] == c + (d + rest)
            && raw[12..] == d + rest && raw[16..] == rest
  {
  }

  /** Of the low sixteen flag bits the two lowest may be set, and the lowest says there is a checksum. */
  lemma FlagBits(upper: int, low: nat)
    requires low < 0x1_0000
    ensures KnownFlags(0x1_0000 * upper + low) <==> low in {0, 1, 2, 3}
    ensures HasChecksum(0x1_0000 * upper + low) <==> low % 2 == 1
  {
    LowBits(0x1_0000 * upper + low, upper, low);
  }

  lemma LowBits(flags: int, upper: int, low: nat)
    requires low < 0x1_0000 && flags == 0x1_0000 * upper + low
    ensures flags % 0x1_0000 == low && flags % 2 == low % 2
  {
    QuotientOnly(flags / 0x1_0000, flags % 0x1_0000, upper, low);
    SameParity(flags, low, 0x8000 * upper);
  }

  lemma QuotientOnly(q: int, r: nat, upper: int, low: nat)
    requires 0x1_0000 * q + r == 0x1_0000 * upper + low && r < 0x1_0000 && low < 0x1_0000
    ensures q == upper && r == low
  {
  }

  lemma SameParity(n: int, m: int, half: int)
    requires n == 2 * half + m
    ensures n % 2 == m % 2
  {
  }

  /** Only messages and legacy queries are understood. */
  lemma OtherOpcodes(raw: Bytes)
    requires |raw| >= HEADER_BYTES && ParsedHeader(raw).opCode !in {2013, 2004}
    ensures ParsedRequest(raw) == Err(NotImplemented)
  {
    hide ParsedHeader;
  }

  /** A legacy query as a client frames it: flags, a name, two counts and the command document. */
  function QueryBytes(header: Bytes, flags: int, name: Bytes, toSkip: int, toReturn: int, doc: Blob): Bytes {
    header + Int32Bytes(flags) + name + [0] + Int32Bytes(toSkip) + Int32Bytes(toReturn) + doc
  }

  /** It parses to its document, whatever follows. */
  lemma QueryParses(header: Bytes, flags: int, name: Bytes, toSkip: int, toReturn: int, doc: Blob, rest: Bytes)
    requires |header| == HEADER_BYTES && ParsedHeader(header).opCode == 2004 && IsInt32(flags) && 0 !in name
    ensures ParsedRequest(QueryBytes(header, flags, name, toSkip, toReturn, doc) + rest) ==
            Ok(Request(ParsedHeader(header), doc, true))
  {
    hide IsDocument, ParsedHeader, Int32Bytes, TakeInt32, TakeCString, TakeDocument, ParsedMsg;
    var counts := Int32Bytes(toSkip) + Int32Bytes(toReturn);
    var afterName := counts + (doc + rest);
    var afterFlags := name + [0] + afterName;
    HeaderFirst(header, Int32Bytes(flags) + afterFlags);
    Int32Found(flags, afterFlags);
    CStringFound(name, afterName);
    DocumentFound(doc, rest);
    assert afterName[8..] == doc + rest;
    RegroupQuery(header, Int32Bytes(flags), name, [0], Int32Bytes(toSkip), Int32Bytes(toReturn), doc, rest);
    assert ParsedQuery(Int32Bytes(flags) + afterFlags) == Ok(doc);
    hide ParsedQuery, QueryBytes;
  }

  lemma RegroupQuery(a: Bytes, b: Bytes, c: Bytes, d: Bytes, e: Bytes, f: Bytes, g: Bytes, h: Bytes)
    ensures (a + b + c + d + e + f + g) + h == a + (b + (c + d + ((e + f) + (g + h))))
  {
  }

  /** A reply to a legacy query: the header with OP_REPLY, no flags, no cursor, from the start, one
      document, and the document; each field where a client looks for it. */
  lemma LegacyReplyLayout(req: Request, requestId: int, body: Blob, out: Bytes)
    requires req.legacyQuery && IsInt32(requestId) && IsInt32(req.header.requestId) && |body| + 36 < TWO_31
    requires out == Int32Bytes(4 + |ReplyFields(req, requestId)| + |body|) + ReplyFields(req, requestId) + body
    ensures |out| == 36 + |body| && ParsedHeader(out) == Header(|out|, requestId, req.header.requestId, 1)
    ensures out[16..36] == [0, 0, 0, 0] + [0, 0, 0, 0, 0, 0, 0, 0] + [0, 0, 0, 0] + [1, 0, 0, 0]
    ensures TakeDocument(out[36..]) == Ok((body, []))
  {
    hide IsDocument;
    var fields := Int32Bytes(0) + Int32Bytes(0) + Int32Bytes(0) + Int32Bytes(0) + Int32Bytes(1);
    assert fields == [0, 0, 0, 0] + [0, 0, 0, 0, 0, 0, 0, 0] + [0, 0, 0, 0] + [1, 0, 0, 0];
    var length := 36 + |body|;
    LegacyFields(req, requestId, fields);
    hide Int32Bytes, ReplyFields;
    RegroupReply(Int32Bytes(length), Int32Bytes(requestId), Int32Bytes(req.header.requestId), Int32Bytes(OP_REPLY),
                 fields, body);
    HeaderLayout(length, requestId, req.header.requestId, OP_REPLY, fields + body);
    hide ParsedHeader, TakeDocument;
    assert out[36..] == body && body + [] == body && out[16..36] == fields;
    DocumentFound(body, []);
  }

  lemma LegacyFields(req: Request, requestId: int, fields: Bytes)
    requires req.legacyQuery
    requires fields == Int32Bytes(0) + Int32Bytes(0) + Int32Bytes(0) + Int32Bytes(0) + Int32Bytes(1)
    ensures ReplyFields(req, requestId) ==
            Int32Bytes(requestId) + Int32Bytes(req.header.requestId) + Int32Bytes(OP_REPLY) + fields
  {
    hide Int32Bytes;
  }

  lemma RegroupReply(a: Bytes, b: Bytes, c: Bytes, d: Bytes, e: Bytes, f: Bytes)
    ensures a + (b + c + d + e) + f == a + b + c + d + (e + f)
  {
  }

  /** The number an element's key spells. */
  function KeyValue(key: Bytes): nat {
    if key == [] then 0 else KeyValue(key[..|key| - 1]) * 10 + (if key[|key| - 1] < 48 then 0 else key[|key| - 1] - 48)
  }

  /** The keys of array elements are their indices in decimal digits, without a leading zero. */
  lemma {:induction false} DecimalReads(n: nat)
    ensures KeyValue(Decimal(n)) == n && Decimal(n) != []
    ensures forall i :: 0 <= i < |Decimal(n)| ==> 48 <= Decimal(n)[i] <= 57
    ensures n > 0 ==> Decimal(n)[0] != 48
  {
    if n >= 10 {
      DecimalReads(n / 10);
      var front := Decimal(n / 10);
      assert Decimal(n) == front + [48 + n % 10];
      assert Decimal(n)[..|front|] == front;
    } else {
      assert Decimal(n) == [48 + n] && KeyValue([]) == 0;
    }
  }
}
