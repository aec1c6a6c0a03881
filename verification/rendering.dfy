/**
 * How the bot renders field values as text: Python's `str` on integers
 * (decimal, a leading '-' for negatives, no leading zeros) and web3's
 * `toHex` on byte strings ("0x" followed by two lower-case hex digits per
 * byte). Each rendering comes with its inverse, so that the lemmas can
 * state that nothing is lost when a value is printed.
 */
module Rendering {

  newtype byte = x: int | 0 <= x < 256

  // ---------------------------------------------------------------------------
  // Decimal numerals (Python's str(int))
  // ---------------------------------------------------------------------------

  predicate IsDigit(c: char) {
    '0' <= c <= '9'
  }

  predicate AllDigits(s: string) {
    forall i :: 0 <= i < |s| ==> IsDigit(s[i])
  }

  function DigitChar(d: nat): (c: char)
    requires d < 10
    ensures IsDigit(c)
  {
    (48 + d) as char
  }

  function DigitValue(c: char): (d: nat)
    requires IsDigit(c)
    ensures d < 10
  {
    c as int - 48
  }

  /** The decimal numeral of `n`, most significant digit first. */
  function NatToString(n: nat): (s: string)
    ensures |s| >= 1
    decreases n
  {
    if n < 10 then [DigitChar(n)] else NatToString(n / 10) + [DigitChar(n % 10)]
  }

  /** The numeral is made of digits and has no leading zero. */
  lemma {:induction false} NatToStringDigits(n: nat)
    ensures AllDigits(NatToString(n))
    ensures NatToString(n)[0] == '0' ==> n == 0
    decreases n
  {
    if n >= 10 {
      NatToStringDigits(n / 10);
    }
  }

  function ParseNat(s: string): nat
    requires AllDigits(s)
    decreases |s|
  {
    if s == [] then 0 else 10 * ParseNat(s[..|s| - 1]) + DigitValue(s[|s| - 1])
  }

  /** Python's `str` on an integer: a '-' leads exactly when the integer is negative. */
  function IntToString(i: int): (s: string)
    ensures |s| >= 1
    ensures s[0] == '-' <==> i < 0
  {
    if i < 0 then "-" + NatToString(-i)
    else
      NatToStringDigits(i);
      NatToString(i)
  }

  /** Digits, preceded by '-' exactly when the integer is negative; so never a newline. */
  lemma IntToStringShape(i: int)
    ensures var s := IntToString(i);
      && (i >= 0 ==> AllDigits(s))
      && (i < 0 ==> |s| >= 2 && s[0] == '-' && AllDigits(s[1..]))
      && '\n' !in s
  {
    var s := IntToString(i);
    if i < 0 {
      NatToStringDigits(-i);
      assert s[1..] == NatToString(-i);
      assert forall k :: 1 <= k < |s| ==> s[k] == s[1..][k - 1];
    } else {
      NatToStringDigits(i);
    }
  }

  predicate IsNumeral(s: string) {
    || (|s| >= 1 && AllDigits(s))
    || (|s| >= 2 && s[0] == '-' && AllDigits(s[1..]))
  }

  function ParseInt(s: string): int
    requires IsNumeral(s)
  {
    if s[0] == '-' then -(ParseNat(s[1..]) as int) else ParseNat(s)
  }

  lemma {:induction false} ParseNatToString(n: nat)
    ensures AllDigits(NatToString(n)) && ParseNat(NatToString(n)) == n
    decreases n
  {
    NatToStringDigits(n);
    var s := NatToString(n);
    if n < 10 {
      assert s[..|s| - 1] == [];
    } else {
      assert s[..|s| - 1] == NatToString(n / 10);
      ParseNatToString(n / 10);
    }
  }

  /** Reading back a printed integer gives the integer. */
  lemma ParseIntToString(i: int)
    ensures IsNumeral(IntToString(i)) && ParseInt(IntToString(i)) == i
  {
    IntToStringShape(i);
    if i < 0 {
      assert IntToString(i)[1..] == NatToString(-i);
      ParseNatToString(-i);
    } else {
      ParseNatToString(i);
    }
  }

  /** Distinct integers are printed as distinct strings. */
  lemma IntToStringInjective(i: int, j: int)
    ensures IntToString(i) == IntToString(j) ==> i == j
  {
    ParseIntToString(i);
    ParseIntToString(j);
  }

  // ---------------------------------------------------------------------------
  // Hexadecimal byte strings (web3's toHex on bytes)
  // ---------------------------------------------------------------------------

  predicate IsHexDigit(c: char) {
    '0' <= c <= '9' || 'a' <= c <= 'f'
  }

  function HexChar(d: nat): (c: char)
    requires d < 16
    ensures IsHexDigit(c)
  {
    if d < 10 then (48 + d) as char else (87 + d) as char
  }

  /** The value of a hex digit; any other character reads as 0. */
  function HexValue(c: char): (d: nat)
    ensures d < 16
  {
    if '0' <= c <= '9' then c as int - 48 else if 'a' <= c <= 'f' then c as int - 87 else 0
  }

  /** Two lower-case hex digits per byte, high nibble first. */
  function HexBody(bs: seq<byte>): (s: string)
    ensures |s| == 2 * |bs|
  {
    if bs == [] then ""
    else [HexChar(bs[0] as int / 16), HexChar(bs[0] as int % 16)] + HexBody(bs[1..])
  }

  lemma {:induction false} HexBodyDigits(bs: seq<byte>)
    ensures forall i :: 0 <= i < |HexBody(bs)| ==> IsHexDigit(HexBody(bs)[i])
  {
    if bs != [] {
      HexBodyDigits(bs[1..]);
      var s := HexBody(bs);
      assert forall i :: 2 <= i < |s| ==> s[i] == HexBody(bs[1..])[i - 2];
    }
  }

  /** web3's `toHex` applied to a byte string. */
  function ToHex(bs: seq<byte>): (s: string)
    ensures |s| == 2 + 2 * |bs| && s[..2] == "0x"
  {
    "0x" + HexBody(bs)
  }

  /** After the "0x" prefix come only lower-case hex digits; so never a newline. */
  lemma ToHexDigits(bs: seq<byte>)
    ensures forall i :: 2 <= i < |ToHex(bs)| ==> IsHexDigit(ToHex(bs)[i])
    ensures '\n' !in ToHex(bs)
  {
    HexBodyDigits(bs);
    var s := ToHex(bs);
    assert forall i :: 2 <= i < |s| ==> s[i] == HexBody(bs)[i - 2];
  }

  // ---------------------------------------------------------------------------
  // The other renderings a call on arbitrary Python values can reach
  // ---------------------------------------------------------------------------

  /** The hexadecimal numeral of `n`, lower case, most significant digit first. */
  function NatToHexString(n: nat): (s: string)
    ensures |s| >= 1
    decreases n
  {
    if n < 16 then [HexChar(n)] else NatToHexString(n / 16) + [HexChar(n % 16)]
  }

  /** Python's `hex` on an integer, which is what web3's `toHex` returns for one. */
  function IntToHex(i: int): (s: string)
    ensures |s| >= 3
    ensures i >= 0 ==> s[..2] == "0x"
    ensures i < 0 ==> s[..3] == "-0x"
  {
    if i < 0 then "-0x" + NatToHexString(-i) else "0x" + NatToHexString(i)
  }

  /** One byte inside Python's `repr` of a bytes value delimited by `quote`: the delimiter and
      the backslash are escaped, tab, newline and carriage return get their short escapes, other
      bytes outside printable ASCII become `\xhh`, and the rest stand for themselves. */
  function ByteRepr(b: byte, quote: char): string
  {
    if b as int == quote as int || b == 92 then ['\\', (b as int) as char]
    else if b == 9 then "\\t"
    else if b == 10 then "\\n"
    else if b == 13 then "\\r"
    else if b < 32 || b >= 127 then ['\\', 'x', HexChar(b as int / 16), HexChar(b as int % 16)]
    else [(b as int) as char]
  }

  function BytesReprBody(bs: seq<byte>, quote: char): string
  {
    if bs == [] then "" else ByteRepr(bs[0], quote) + BytesReprBody(bs[1..], quote)
  }

  /** Python's `str` of a bytes value, which is its `repr`: a `b`, then the escaped bytes between
      quotes; the quotes are double when the bytes hold a single quote and no double quote. */
  function BytesRepr(bs: seq<byte>): (s: string)
    ensures |s| >= 3 && s[0] == 'b'
    ensures s[1] == s[|s| - 1] == (if 39 in bs && 34 !in bs then '"' else '\'')
  {
    var quote := if 39 in bs && 34 !in bs then '"' else '\'';
    "b" + [quote] + BytesReprBody(bs, quote) + [quote]
  }

  function FromHexBody(s: string): seq<byte>
    requires |s| % 2 == 0
    decreases |s|
  {
    if s == [] then [] else [(16 * HexValue(s[0]) + HexValue(s[1])) as byte] + FromHexBody(s[2..])
  }

  lemma {:induction false} FromHexBodyInverse(bs: seq<byte>)
    ensures FromHexBody(HexBody(bs)) == bs
  {
    if bs != [] {
      var s := HexBody(bs);
      var hi, lo := bs[0] as int / 16, bs[0] as int % 16;
      assert HexValue(HexChar(hi)) == hi;
      assert HexValue(HexChar(lo)) == lo;
      assert s[2..] == HexBody(bs[1..]);
      FromHexBodyInverse(bs[1..]);
    }
  }

  /** Distinct byte strings have distinct hex renderings. */
  lemma ToHexInjective(a: seq<byte>, b: seq<byte>)
    ensures ToHex(a) == ToHex(b) ==> a == b
  {
    if ToHex(a) == ToHex(b) {
      assert HexBody(a) == ToHex(a)[2..];
      assert HexBody(b) == ToHex(b)[2..];
      FromHexBodyInverse(a);
      FromHexBodyInverse(b);
    }
  }
}
