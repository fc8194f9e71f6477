/** Presentation text used by the reply rewriter: decimal numbers as
    Python's `d` format writes them, upper-case hexadecimal as its `02X`
    format writes it, and the generic rendering of RDATA for unknown RR
    types of section 5 of RFC 3597 (`CLASSn TYPEn \# len HEX`), with a
    parser that inverts it. */
module Text {
  import opened Base

  function DigitChar(d: nat): (c: char)
    requires d < 10
    ensures IsDigit(c) && DigitValue(c) == d
  {
    ('0' as int + d) as char
  }

  predicate IsDigit(c: char) {
    '0' <= c <= '9'
  }

  function DigitValue(c: char): nat
    requires IsDigit(c)
  {
    (c as int - '0' as int) as nat
  }

  /** `format(n, 'd')` for a non-negative integer. */
  function Decimal(n: nat): (s: string)
    ensures |s| >= 1 && ' ' !in s
    ensures forall i :: 0 <= i < |s| ==> IsDigit(s[i])
  {
    if n < 10 then [DigitChar(n)] else Decimal(n / 10) + [DigitChar(n % 10)]
  }

  /** `format(i, 'd')` for any integer: a minus sign before negative values. */
  function IntText(i: int): (s: string)
    ensures ' ' !in s
  {
    if i < 0 then "-" + Decimal(-i) else Decimal(i)
  }

  function ParseDigits(s: string): nat
    requires forall i :: 0 <= i < |s| ==> IsDigit(s[i])
  {
    if s == [] then 0 else 10 * ParseDigits(s[..|s| - 1]) + DigitValue(s[|s| - 1])
  }

  /** Reads back a decimal written by `Decimal`. */
  function ParseDecimal(s: string): Option<nat> {
    if |s| >= 1 && forall i :: 0 <= i < |s| ==> IsDigit(s[i]) then Some(ParseDigits(s)) else None
  }

  function ParseInt(s: string): Option<int> {
    if |s| >= 2 && s[0] == '-' then
      match ParseDecimal(s[1..])
      case Some(n) => var m: int := 0 - n as int; if n > 0 then Some(m) else None
      case None => None
    else
      match ParseDecimal(s)
      case Some(n) => Some(n as int)
      case None => None
  }

  lemma {:induction false} DecimalRoundTrip(n: nat)
    ensures ParseDecimal(Decimal(n)) == Some(n)
  {
    var s := Decimal(n);
    if n >= 10 {
      DecimalRoundTrip(n / 10);
      assert s[..|s| - 1] == Decimal(n / 10);
      assert ParseDigits(s) == 10 * ParseDigits(Decimal(n / 10)) + n % 10;
    }
  }

  lemma IntTextRoundTrip(i: int)
    ensures ParseInt(IntText(i)) == Some(i)
  {
    if i < 0 {
      DecimalRoundTrip(-i);
      assert IntText(i)[1..] == Decimal(-i);
    } else {
      DecimalRoundTrip(i);
    }
  }

  predicate IsHexDigit(c: char) {
    IsDigit(c) || 'A' <= c <= 'F'
  }

  function HexChar(d: nat): (c: char)
    requires d < 16
    ensures IsHexDigit(c) && HexValue(c) == d
  {
    if d < 10 then DigitChar(d) else ('A' as int + d - 10) as char
  }

  function HexValue(c: char): nat
    requires IsHexDigit(c)
  {
    if IsDigit(c) then DigitValue(c) else (c as int - 'A' as int + 10) as nat
  }

  /** `format(b, '02X')`: exactly two upper-case hexadecimal digits. */
  function HexByte(b: byte): (s: string)
    ensures |s| == 2 && IsHexDigit(s[0]) && IsHexDigit(s[1])
    ensures 16 * HexValue(s[0]) + HexValue(s[1]) == b as int
  {
    [HexChar(b as nat / 16), HexChar(b as nat % 16)]
  }

  /** `''.join(format(c, '02X') for c in bs)`. */
  function Hex(bs: seq<byte>): (s: string)
    ensures |s| == 2 * |bs|
    ensures forall i :: 0 <= i < |s| ==> IsHexDigit(s[i])
  {
    if bs == [] then "" else HexByte(bs[0]) + Hex(bs[1..])
  }

  predicate IsHexText(s: string) {
    |s| % 2 == 0 && forall i :: 0 <= i < |s| ==> IsHexDigit(s[i])
  }

  function UnHex(s: string): seq<byte>
    requires IsHexText(s)
  {
    if s == [] then []
    else
      var v := 16 * HexValue(s[0]) + HexValue(s[1]);
      assert v < 256;
      [v as byte] + UnHex(s[2..])
  }

  lemma {:induction false} HexRoundTrip(bs: seq<byte>)
    ensures IsHexText(Hex(bs)) && UnHex(Hex(bs)) == bs
  {
    if bs != [] {
      HexRoundTrip(bs[1..]);
      var s := Hex(bs);
      assert s[2..] == Hex(bs[1..]);
    }
  }

  /** RDATA of an unknown-type RR as written for the stash and the rebuilt
      answer: `CLASS<class> TYPE<type> \# <len> <hex>`. */
  function GenericRData(rclass: nat, rtype: nat, len: int, rdata: seq<byte>): string {
    "CLASS" + Decimal(rclass) + " " + TypeText(rtype, len, rdata)
  }

  function TypeText(rtype: nat, len: int, rdata: seq<byte>): string {
    "TYPE" + Decimal(rtype) + " " + LenText(len, rdata)
  }

  function LenText(len: int, rdata: seq<byte>): string {
    "\\# " + IntText(len) + " " + Hex(rdata)
  }

  /** Splits at the first space: the word before it and the text after it. */
  function SplitWord(s: string): Option<(string, string)> {
    if s == [] then None
    else if s[0] == ' ' then Some(([], s[1..]))
    else
      match SplitWord(s[1..])
      case Some(p) => Some(([s[0]] + p.0, p.1))
      case None => None
  }

  lemma {:induction false} SplitWordAt(w: string, rest: string)
    requires ' ' !in w
    ensures SplitWord(w + " " + rest) == Some((w, rest))
  {
    var s := w + " " + rest;
    if w == [] {
      assert s[0] == ' ' && s[1..] == rest;
    } else {
      assert s[0] == w[0] && w[0] != ' ';
      assert s[1..] == w[1..] + " " + rest;
      SplitWordAt(w[1..], rest);
      assert [w[0]] + w[1..] == w;
    }
  }

  datatype GenericFields = GenericFields(rclass: nat, rtype: nat, len: int, rdata: seq<byte>)

  /** Reads text in the `CLASSn TYPEn \# len HEX` form back into its fields. */
  function ParseGenericRData(s: string): Option<GenericFields> {
    if |s| < 5 || s[..5] != "CLASS" then None else ParseClassField(s[5..])
  }

  function ParseClassField(s: string): Option<GenericFields> {
    match SplitWord(s)
    case None => None
    case Some(p) =>
      match ParseDecimal(p.0)
      case None => None
      case Some(c) => ParseTypeField(c, p.1)
  }

  function ParseTypeField(c: nat, s: string): Option<GenericFields> {
    if |s| < 4 || s[..4] != "TYPE" then None
    else
      match SplitWord(s[4..])
      case None => None
      case Some(p) =>
        match ParseDecimal(p.0)
        case None => None
        case Some(t) => ParseLenField(c, t, p.1)
  }

  function ParseLenField(c: nat, t: nat, s: string): Option<GenericFields> {
    if |s| < 3 || s[..3] != "\\# " then None
    else
      match SplitWord(s[3..])
      case None => None
      case Some(p) =>
        match ParseInt(p.0)
        case None => None
        case Some(n) => if IsHexText(p.1) then Some(GenericFields(c, t, n, UnHex(p.1))) else None
  }

  /** A field tag followed by a word, a space and the rest splits back at
      the tag. */
  lemma TagSplit(tag: string, w: string, rest: string)
    ensures (tag + w + " " + rest)[..|tag|] == tag
    ensures (tag + w + " " + rest)[|tag|..] == w + " " + rest
  {
    assert tag + w + " " + rest == tag + (w + " " + rest);
  }

  lemma LenFieldRoundTrip(c: nat, t: nat, len: int, rdata: seq<byte>)
    ensures ParseLenField(c, t, LenText(len, rdata)) == Some(GenericFields(c, t, len, rdata))
  {
    TagSplit("\\# ", IntText(len), Hex(rdata));
    SplitWordAt(IntText(len), Hex(rdata));
    IntTextRoundTrip(len);
    HexRoundTrip(rdata);
  }

  lemma TypeFieldRoundTrip(c: nat, t: nat, len: int, rdata: seq<byte>)
    ensures ParseTypeField(c, TypeText(t, len, rdata)) == Some(GenericFields(c, t, len, rdata))
  {
    TagSplit("TYPE", Decimal(t), LenText(len, rdata));
    SplitWordAt(Decimal(t), LenText(len, rdata));
    DecimalRoundTrip(t);
    LenFieldRoundTrip(c, t, len, rdata);
  }

  /** The generic RDATA text carries its class, type, length and bytes
      losslessly. */
  lemma GenericRDataRoundTrip(rclass: nat, rtype: nat, len: int, rdata: seq<byte>)
    ensures ParseGenericRData(GenericRData(rclass, rtype, len, rdata))
            == Some(GenericFields(rclass, rtype, len, rdata))
  {
    TagSplit("CLASS", Decimal(rclass), TypeText(rtype, len, rdata));
    SplitWordAt(Decimal(rclass), TypeText(rtype, len, rdata));
    DecimalRoundTrip(rclass);
    TypeFieldRoundTrip(rclass, rtype, len, rdata);
  }
}
