/** Reading integers from text: the common front end of `std::stoi` and of the `%d` conversion of
    `fscanf` - skip white space, one optional sign, then as many digits as there are. */
module Text {
  import opened Decimal

  datatype Option<+T> = None | Some(value: T)

  /** A value and what is left of the text after it. */
  datatype Parsed<+T> = Parsed(value: T, rest: string)

  predicate IsSpace(c: char) {
    c == ' ' || '\t' <= c <= '\r'
  }

  function SkipSpace(s: string): (r: string)
    ensures |r| <= |s|
    ensures r == [] || !IsSpace(r[0])
  {
    if s != [] && IsSpace(s[0]) then SkipSpace(s[1..]) else s
  }

  /** The length of the longest prefix of digits. */
  function DigitRun(s: string): (k: nat)
    ensures k <= |s|
    ensures forall i | 0 <= i < k :: IsDigit(s[i])
    ensures k < |s| ==> !IsDigit(s[k])
  {
    if s != [] && IsDigit(s[0]) then 1 + DigitRun(s[1..]) else 0
  }

  function ParseDigits(s: string): Option<Parsed<int>> {
    var k := DigitRun(s);
    if k == 0 then None else Some(Parsed(Value(s[..k]), s[k..]))
  }

  function Negated(p: Option<Parsed<int>>): Option<Parsed<int>> {
    match p
    case None => None
    case Some(v) => Some(Parsed(-v.value, v.rest))
  }

  function ParseSigned(t: string): Option<Parsed<int>> {
    if t != [] && t[0] == '-' then Negated(ParseDigits(t[1..]))
    else if t != [] && t[0] == '+' then ParseDigits(t[1..])
    else ParseDigits(t)
  }

  function ParseInt(s: string): Option<Parsed<int>> {
    ParseSigned(SkipSpace(s))
  }

  /** What `%d` prints. */
  function IntToString(n: int): string {
    if n < 0 then "-" + ToString(-n) else ToString(n)
  }

  /** Two ways to say where the digits of s stop cannot disagree. */
  lemma DigitRunIs(s: string, k: nat)
    requires k <= |s| && (forall i | 0 <= i < k :: IsDigit(s[i])) && (k < |s| ==> !IsDigit(s[k]))
    ensures DigitRun(s) == k
  {
  }

  lemma ParseDigitsPrinted(n: nat, rest: string)
    requires rest == [] || !IsDigit(rest[0])
    ensures ParseDigits(ToString(n) + rest) == Some(Parsed(n as int, rest))
  {
    var s, k := ToString(n) + rest, |ToString(n)|;
    DigitRunIs(s, k);
    assert s[..k] == ToString(n) && s[k..] == rest;
    ValueOfToString(n);
  }

  lemma ParseSignedCases(t: string)
    ensures ParseSigned("-" + t) == Negated(ParseDigits(t))
    ensures t != [] && IsDigit(t[0]) ==> ParseSigned(t) == ParseDigits(t)
  {
    assert ("-" + t)[1..] == t;
  }

  lemma ParseSignedPrinted(n: int, rest: string)
    requires rest == [] || !IsDigit(rest[0])
    ensures ParseSigned(IntToString(n) + rest) == Some(Parsed(n, rest))
  {
    var digits := ToString(if n < 0 then -n else n) + rest;
    ParseDigitsPrinted(if n < 0 then -n else n, rest);
    ParseSignedCases(digits);
    assert IntToString(n) + rest == if n < 0 then "-" + digits else digits;
  }

  lemma PrintedStartsSolid(n: int, rest: string)
    ensures SkipSpace(IntToString(n) + rest) == IntToString(n) + rest
  {
    var s := IntToString(n) + rest;
    if 0 <= n {
      assert s[0] == ToString(n)[0] && IsDigit(s[0]);
    }
  }

  /** White space in front and either sign are accepted, white space after the sign is not, and what follows
      the digits is left. */
  lemma SpaceAndSigns(n: nat, rest: string)
    requires rest == [] || !IsDigit(rest[0])
    ensures ParseInt(" \t\n\r" + ("+" + (ToString(n) + rest))) == Some(Parsed(n as int, rest))
    ensures ParseInt("- " + rest) == None
  {
    var t := "+" + (ToString(n) + rest);
    assert t[0] == '+' && t[1..] == ToString(n) + rest;
    ParseDigitsPrinted(n, rest);
    SpacesSkipped(t);
    assert ("- " + rest)[1..][0] == ' ';
  }

  lemma SpacesSkipped(t: string)
    requires t != [] && !IsSpace(t[0])
    ensures SkipSpace(" \t\n\r" + t) == t
  {
    var s := " \t\n\r" + t;
    assert s[1..] == "\t\n\r" + t && s[2..] == "\n\r" + t && s[3..] == "\r" + t && s[4..] == t;
    assert SkipSpace(s[4..]) == t;
    assert SkipSpace(s[3..]) == t;
    assert SkipSpace(s[2..]) == t;
    assert SkipSpace(s[1..]) == t;
  }

  /** Printing an integer and parsing it back gives the integer and leaves the rest untouched. */
  lemma ParseIntPrinted(n: int, rest: string)
    requires rest == [] || !IsDigit(rest[0])
    ensures ParseInt(IntToString(n) + rest) == Some(Parsed(n, rest))
  {
    PrintedStartsSolid(n, rest);
    ParseSignedPrinted(n, rest);
  }
}
