/** Decimal and hexadecimal numerals as GrIPD writes and reads them. */
module Numerals {
  import opened Wrappers

  function DigitChar(d: nat): (c: char)
    requires d < 10
  {
    '0' + d as char
  }

  function CharDigit(c: char): (d: Option<nat>) {
    if '0' <= c <= '9' then Some((c - '0') as nat) else None
  }

  function Digits(n: nat): (s: string)
    ensures s != "" && forall i | 0 <= i < |s| :: '0' <= s[i] <= '9'
  {
    if n < 10 then [DigitChar(n)] else Digits(n / 10) + [DigitChar(n % 10)]
  }

  /** `repr` of an integer. */
  function Repr(n: int): (s: string)
    ensures s != "" && forall i | 0 <= i < |s| :: s[i] == '-' || '0' <= s[i] <= '9'
  {
    if n < 0 then "-" + Digits(-n) else Digits(n)
  }

  function Value(s: string): (n: Option<nat>) {
    if s == "" then None
    else if |s| == 1 then CharDigit(s[0])
    else
      match (Value(s[..|s| - 1]), CharDigit(s[|s| - 1]))
      case (Some(n), Some(d)) => Some(10 * n + d)
      case _ => None
  }

  /** `atoi`: an optional sign and at least one digit; anything else raises. */
  function Atoi(s: string): (n: Option<int>) {
    if s != "" && s[0] == '-' then
      match Value(s[1..]) case Some(n) => Some(-(n as int)) case None => None
    else if s != "" && s[0] == '+' then
      match Value(s[1..]) case Some(n) => Some(n) case None => None
    else
      match Value(s) case Some(n) => Some(n) case None => None
  }

  lemma {:induction false} ValueDigits(n: nat)
    ensures Value(Digits(n)) == Some(n)
  {
    if n >= 10 {
      var s := Digits(n);
      ValueDigits(n / 10);
      assert s[..|s| - 1] == Digits(n / 10) && s[|s| - 1] == DigitChar(n % 10);
    }
  }

  lemma AtoiRepr(n: int)
    ensures Atoi(Repr(n)) == Some(n)
  {
    if n < 0 {
      ValueDigits(-n);
      AtoiMinus(Digits(-n));
    } else {
      ValueDigits(n);
      AtoiPlain(Digits(n));
    }
  }

  lemma AtoiMinus(s: string)
    requires Value(s).Some?
    ensures Atoi("-" + s) == Some(-(Value(s).value as int))
  {
    assert ("-" + s)[1..] == s;
  }

  lemma AtoiPlain(s: string)
    requires s != "" && '0' <= s[0] <= '9' && Value(s).Some?
    ensures Atoi(s) == Some(Value(s).value)
  {}

  datatype Colour = NotOk | Rgb(r: nat, g: nat, b: nat) {
    predicate Valid() { Rgb? ==> r < 256 && g < 256 && b < 256 }
  }

  function HexChar(v: nat): (c: char)
    requires v < 16
  {
    if v > 9 then (v + 87) as char else DigitChar(v)
  }

  function CharHex(c: char): (v: Option<nat>) {
    if '0' <= c <= '9' then Some((c - '0') as nat)
    else if 'a' <= c <= 'f' then Some((c - 'a') as nat + 10)
    else if 'A' <= c <= 'F' then Some((c - 'A') as nat + 10)
    else None
  }

  function HexPair(v: nat): (s: string)
    requires v < 256
  {
    [HexChar(v / 16), HexChar(v - (v / 16) * 16)]
  }

  function HexString(c: Colour): (s: string)
    requires c.Rgb? && c.Valid()
  {
    HexPair(c.r) + HexPair(c.g) + HexPair(c.b)
  }

  /** `colorTuple2HexString`: the digits of the three parts, built up in a loop. */
  method BuildHexString(c: Colour) returns (hexString: string)
    requires c.Rgb? && c.Valid()
    ensures hexString == HexString(c) && ParseColour("#" + hexString) == c
  {
    var tuple := [c.r, c.g, c.b];
    hexString := "";
    var i := 0;
    while i < 3
      invariant 0 <= i <= 3 && hexString == (HexPair(c.r) + HexPair(c.g) + HexPair(c.b))[..2 * i]
    {
      hexString := hexString + [HexChar(tuple[i] / 16)];
      hexString := hexString + [HexChar(tuple[i] - (tuple[i] / 16) * 16)];
      i := i + 1;
    }
    ParseHexString(c);
  }

  function PairValue(a: char, b: char): (v: Option<nat>) {
    match (CharHex(a), CharHex(b))
    case (Some(x), Some(y)) => Some(16 * x + y)
    case _ => None
  }

  /** How a colour given as `#rrggbb` is understood; any other string is no colour. */
  function ParseColour(s: string): (c: Colour)
    ensures c.Valid()
  {
    if |s| != 7 || s[0] != '#' then NotOk
    else
      match (PairValue(s[1], s[2]), PairValue(s[3], s[4]), PairValue(s[5], s[6]))
      case (Some(r), Some(g), Some(b)) => Rgb(r, g, b)
      case _ => NotOk
  }

  lemma ParseHexString(c: Colour)
    requires c.Rgb? && c.Valid()
    ensures ParseColour("#" + HexString(c)) == c
  {}
}
