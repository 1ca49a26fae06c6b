/**
  Decimal text of a raw namespace: Rust's `str::parse::<u32>` as used on
  the text of the `ns` element, and the rendering a dump writer uses.
 */
module Decimal {
  import opened Wrappers
  import opened DumpTypes

  predicate IsDigit(c: char) {
    '0' <= c <= '9'
  }

  predicate AllDigits(s: string) {
    forall i | 0 <= i < |s| :: IsDigit(s[i])
  }

  /** The value of a string of decimal digits, most significant first. */
  function DigitsValue(s: string): nat
    requires AllDigits(s)
    decreases |s|
  {
    if s == [] then 0
    else DigitsValue(s[..|s| - 1]) * 10 + (s[|s| - 1] as int - '0' as int)
  }

  /** The digits that follow an optional leading '+'. */
  function Unsigned(s: string): string {
    if |s| > 0 && s[0] == '+' then s[1..] else s
  }

  /**
    `str::parse::<u32>`: an optional leading '+', then one or more ASCII
    digits whose value is below 2^32. No sign other than '+', no
    surrounding whitespace and no empty digit string is accepted.
   */
  function ParseU32(s: string): (r: Option<u32>)
    ensures r.Some? ==> |s| > 0 && forall i | 0 <= i < |s| :: IsDigit(s[i]) || (i == 0 && s[i] == '+')
  {
    var digits := Unsigned(s);
    if digits != [] && AllDigits(digits) && DigitsValue(digits) < 0x1_0000_0000
    then Some(DigitsValue(digits))
    else None
  }

  function DigitChar(d: nat): (c: char)
    requires d < 10
    ensures IsDigit(c) && c as int - '0' as int == d
  {
    ('0' as int + d) as char
  }

  /** The shortest decimal rendering of `v`, as a dump writer emits it in `ns`. */
  function Render(v: nat): (s: string)
    ensures s != [] && AllDigits(s) && DigitsValue(s) == v
    ensures s[0] != '+'
    decreases v
  {
    if v < 10 then [DigitChar(v)]
    else
      var prefix := Render(v / 10);
      var s := prefix + [DigitChar(v % 10)];
      assert s[..|s| - 1] == prefix;
      s
  }

  /** Parsing what a writer renders gives back the identifier, with or without a '+'. */
  lemma ParseRender(v: u32)
    ensures ParseU32(Render(v)) == Some(v)
    ensures ParseU32("+" + Render(v)) == Some(v)
  {
    assert Unsigned("+" + Render(v)) == Render(v);
  }

  /**
    Digit strings whose value does not fit in 32 bits are refused rather
    than wrapped, whatever their length or leading zeros, with or without
    a leading '+'.
   */
  lemma ParseRejectsOverflow(s: string)
    requires AllDigits(s) && DigitsValue(s) >= 0x1_0000_0000
    ensures ParseU32(s) == None
    ensures ParseU32("+" + s) == None
  {
    assert Unsigned("+" + s) == s;
  }

  /** A character that is neither a digit nor a leading '+' (a space, a '-') makes the parse fail. */
  lemma ParseRejectsNonDigit(s: string, i: nat)
    requires i < |s| && !IsDigit(s[i]) && !(i == 0 && s[i] == '+')
    ensures ParseU32(s) == None
  {
  }

  /** Leading zeros are accepted and do not change the value, as digits or as the parse's result. */
  lemma {:induction false} LeadingZeros(s: string)
    requires AllDigits(s)
    ensures AllDigits("0" + s) && DigitsValue("0" + s) == DigitsValue(s)
    ensures s != [] ==> ParseU32("0" + s) == ParseU32(s)
    decreases |s|
  {
    if s != [] {
      var t := "0" + s;
      assert t[..|t| - 1] == "0" + s[..|s| - 1];
      LeadingZeros(s[..|s| - 1]);
      assert Unsigned(t) == t && Unsigned(s) == s;
    }
  }

  /** Text without a digit is refused: the empty string and a lone '+'. */
  lemma ParseRejectsNoDigits()
    ensures ParseU32("") == None
    ensures ParseU32("+") == None
  {
    assert Unsigned("+") == [];
  }
}
