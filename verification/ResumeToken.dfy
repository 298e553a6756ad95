/** Resume tokens: 16 lowercase hex digits of an oplog sequence number.  Two programs write them,
    the SQL event expression and the wire reply, and one reads them back. */
module ResumeToken {
  import opened Optional

  const TOKEN_LIMIT: nat := 0x1_0000_0000_0000_0000

  function Digit(n: nat): char
    requires n < 16
  {
    "0123456789abcdef"[n]
  }

  function UpperDigit(n: nat): char
    requires n < 16
  {
    "0123456789ABCDEF"[n]
  }

  // ---------------------------------------------------------------- LPAD(LOWER(HEX(seq)), 16, '0')

  /** HEX of an integer: uppercase, no padding. */
  function SqlHex(n: nat): string {
    if n < 16 then [UpperDigit(n)] else SqlHex(n / 16) + [UpperDigit(n % 16)]
  }

  function LowerChar(c: char): char {
    if 'A' <= c <= 'Z' then (c as int - 'A' as int + 'a' as int) as char else c
  }

  function SqlLower(s: string): string {
    seq(|s|, i requires 0 <= i < |s| => LowerChar(s[i]))
  }

  function Zeros(n: nat): string {
    seq(n, _ => '0')
  }

  /** LPAD truncates on the right when the text is already longer. */
  function SqlPad(s: string, width: nat): string {
    if |s| < width then Zeros(width - |s|) + s else s[..width]
  }

  function SqlToken(n: nat): string {
    SqlPad(SqlLower(SqlHex(n)), 16)
  }

  // ---------------------------------------------------------------- encode_resume_token

  /** The low `width` hex digits, most significant first: printf's %0<width>llx. */
  function Encode(n: nat, width: nat): string {
    if width == 0 then [] else Encode(n / 16, width - 1) + [Digit(n % 16)]
  }

  function EncodeToken(n: nat): string {
    Encode(n, 16)
  }

  // ---------------------------------------------------------------- decode_resume_token

  predicate IsLowerHex(c: char) {
    '0' <= c <= '9' || 'a' <= c <= 'f'
  }

  function HexValue(c: char): nat
    requires IsLowerHex(c)
  {
    if c <= '9' then c as int - '0' as int else c as int - 'a' as int + 10
  }

  /** strtoull in base 16. */
  function Parse(s: string): nat
    requires forall i :: 0 <= i < |s| ==> IsLowerHex(s[i])
  {
    if s == [] then 0 else Parse(s[..|s| - 1]) * 16 + HexValue(s[|s| - 1])
  }

  predicate AllLowerHex(s: string) {
    forall i :: 0 <= i < |s| ==> IsLowerHex(s[i])
  }

  /** The value of the token document's _data string; None is a rejected token. */
  function DecodeToken(data: string): Option<nat> {
    if |data| != 16 || !AllLowerHex(data) then None else Some(Parse(data))
  }

  // ---------------------------------------------------------------- the codec's laws

  function Pow16(k: nat): nat {
    if k == 0 then 1 else 16 * Pow16(k - 1)
  }

  lemma {:induction false} EncodeIsWide(n: nat, width: nat)
    ensures |Encode(n, width)| == width && AllLowerHex(Encode(n, width))
  {
    if width > 0 { EncodeIsWide(n / 16, width - 1); }
  }

  lemma ValueOfDigit(n: nat)
    requires n < 16
    ensures IsLowerHex(Digit(n)) && HexValue(Digit(n)) == n
  {
    assert n == 0 || n == 1 || n == 2 || n == 3 || n == 4 || n == 5 || n == 6 || n == 7 || n == 8
           || n == 9 || n == 10 || n == 11 || n == 12 || n == 13 || n == 14 || n == 15;
  }

  lemma Narrower(n: nat, width: nat)
    requires 0 < width && n < Pow16(width)
    ensures n / 16 < Pow16(width - 1)
  {
  }

  lemma ParseLast(s: string, c: char)
    requires AllLowerHex(s) && IsLowerHex(c)
    ensures AllLowerHex(s + [c]) && Parse(s + [c]) == Parse(s) * 16 + HexValue(c)
  {
    hide IsLowerHex, HexValue;
    assert (s + [c])[..|s|] == s;
  }

  lemma {:induction false} ParseEncode(n: nat, width: nat)
    requires n < Pow16(width)
    ensures AllLowerHex(Encode(n, width)) && Parse(Encode(n, width)) == n
  {
    hide Digit, HexValue, IsLowerHex, AllLowerHex, Parse;
    EncodeIsWide(n, width);
    if width > 0 {
      Narrower(n, width);
      hide Pow16;
      ParseEncode(n / 16, width - 1);
      ValueOfDigit(n % 16);
      ParseLast(Encode(n / 16, width - 1), Digit(n % 16));
    } else {
      EmptyParse();
    }
  }

  lemma EmptyParse()
    ensures Parse([]) == 0 && Pow16(0) == 1
  {
  }

  lemma DigitOfValue(c: char)
    requires IsLowerHex(c)
    ensures HexValue(c) < 16 && Digit(HexValue(c)) == c
  {
    var v := HexValue(c);
    assert v == 0 || v == 1 || v == 2 || v == 3 || v == 4 || v == 5 || v == 6 || v == 7 || v == 8
           || v == 9 || v == 10 || v == 11 || v == 12 || v == 13 || v == 14 || v == 15;
  }

  lemma Divided(q: nat, r: nat)
    requires r < 16
    ensures (q * 16 + r) / 16 == q && (q * 16 + r) % 16 == r
  {
  }

  lemma {:induction false} EncodeParse(s: string)
    requires AllLowerHex(s)
    ensures Parse(s) < Pow16(|s|) && Encode(Parse(s), |s|) == s
  {
    if s == [] {
      EmptyParse();
    } else {
      hide Digit, HexValue, IsLowerHex, Parse, Pow16;
      var init, c := s[..|s| - 1], s[|s| - 1];
      EncodeParse(init);
      DigitOfValue(c);
      ParseLast(init, c);
      assert s == init + [c];
      Divided(Parse(init), HexValue(c));
      Wider(Parse(init), HexValue(c), |init|);
    }
  }

  lemma Wider(q: nat, r: nat, width: nat)
    requires q < Pow16(width) && r < 16
    ensures q * 16 + r < Pow16(width + 1)
  {
  }

  lemma Widths()
    ensures Pow16(16) == TOKEN_LIMIT
  {
    assert Pow16(4) == 0x1_0000;
    assert Pow16(8) == 0x1_0000_0000;
    assert Pow16(12) == 0x1_0000_0000_0000;
  }

  /** The reader inverts the wire encoder for every uint64 … */
  lemma DecodeEncode(n: nat)
    requires n < TOKEN_LIMIT
    ensures DecodeToken(EncodeToken(n)) == Some(n)
  {
    Widths();
    ParseEncode(n, 16);
    EncodeIsWide(n, 16);
  }

  /** … and accepts nothing but what that encoder writes. */
  lemma DecodeAcceptsOnlyEncodings(data: string)
    ensures DecodeToken(data).Some? <==> exists n: nat :: n < TOKEN_LIMIT && data == EncodeToken(n)
  {
    Widths();
    if DecodeToken(data).Some? {
      EncodeParse(data);
      assert data == EncodeToken(Parse(data));
    }
    if n: nat :| n < TOKEN_LIMIT && data == EncodeToken(n) {
      EncodeIsWide(n, 16);
    }
  }

  lemma LowerDigit(n: nat)
    requires n < 16
    ensures LowerChar(UpperDigit(n)) == Digit(n)
  {
    assert n == 0 || n == 1 || n == 2 || n == 3 || n == 4 || n == 5 || n == 6 || n == 7 || n == 8
           || n == 9 || n == 10 || n == 11 || n == 12 || n == 13 || n == 14 || n == 15;
  }

  lemma {:induction false} ZerosEncodeZero(width: nat)
    ensures Encode(0, width) == Zeros(width)
  {
    if width > 0 {
      ZerosEncodeZero(width - 1);
      assert Zeros(width) == Zeros(width - 1) + ['0'];
    }
  }

  lemma LowerAppend(s: string, c: char)
    ensures SqlLower(s + [c]) == SqlLower(s) + [LowerChar(c)]
  {
  }

  lemma PadAppend(s: string, c: char, width: nat)
    requires |s| < width
    ensures SqlPad(s + [c], width) == SqlPad(s, width - 1) + [c]
  {
    if |s| + 1 < width {
      assert Zeros(width - |s| - 1) + (s + [c]) == (Zeros(width - 1 - |s|) + s) + [c];
    } else {
      assert s[..width - 1] == s && (s + [c])[..width] == s + [c];
    }
  }

  lemma {:induction false} PaddedHex(n: nat, width: nat)
    requires 0 < width && n < Pow16(width)
    ensures |SqlHex(n)| <= width
    ensures SqlPad(SqlLower(SqlHex(n)), width) == Encode(n, width)
  {
    LowerDigit(n % 16);
    hide UpperDigit, Digit, LowerChar;
    if n < 16 {
      PaddedDigit(n, width);
    } else {
      assert width > 1;
      PaddedHex(n / 16, width - 1);
      LowerAppend(SqlHex(n / 16), UpperDigit(n % 16));
      PadAppend(SqlLower(SqlHex(n / 16)), Digit(n % 16), width);
      hide SqlPad, SqlLower;
    }
  }

  lemma PaddedDigit(n: nat, width: nat)
    requires 0 < width && n < 16 && LowerChar(UpperDigit(n)) == Digit(n)
    ensures |SqlHex(n)| <= width
    ensures SqlPad(SqlLower(SqlHex(n)), width) == Encode(n, width)
  {
    hide UpperDigit, Digit, LowerChar;
    var s: string := [];
    assert SqlHex(n) == s + [UpperDigit(n)];
    LowerAppend(s, UpperDigit(n));
    PadAppend(SqlLower(s), Digit(n), width);
    assert SqlPad(SqlLower(s), width - 1) == Zeros(width - 1);
    ZerosEncodeZero(width - 1);
  }

  /** The event's _id and the reply's token are the same text for every uint64. */
  lemma SqlTokenIsEncodeToken(n: nat)
    requires n < TOKEN_LIMIT
    ensures SqlToken(n) == EncodeToken(n)
  {
    Widths();
    PaddedHex(n, 16);
  }
}
