/** Strings as JavaScript holds them, in UTF-16 code units, and the scalar strings a URL can carry. */
module Utf16 {

  newtype CodeUnit = x: int | 0 <= x < 0x10000

  type Units = seq<CodeUnit>

  predicate High(u: CodeUnit) {
    0xD800 <= u < 0xDC00
  }

  predicate Low(u: CodeUnit) {
    0xDC00 <= u < 0xE000
  }

  predicate Paired(u: Units) {
    |u| >= 2 && High(u[0]) && Low(u[1])
  }

  function PairValue(high: CodeUnit, low: CodeUnit): char
    requires High(high) && Low(low)
  {
    (0x10000 + (high as int - 0xD800) * 0x400 + (low as int - 0xDC00)) as char
  }

  /** The conversion every API of URLs applies: an unpaired surrogate becomes U+FFFD. */
  function Scalars(u: Units): string {
    if u == [] then ""
    else if Paired(u) then [PairValue(u[0], u[1])] + Scalars(u[2..])
    else if High(u[0]) || Low(u[0]) then ['\U{FFFD}'] + Scalars(u[1..])
    else [u[0] as char] + Scalars(u[1..])
  }

  function UnitsOfChar(c: char): Units {
    var n := c as int;
    if n < 0x10000 then [n as CodeUnit]
    else [(0xD800 + (n - 0x10000) / 0x400) as CodeUnit, (0xDC00 + (n - 0x10000) % 0x400) as CodeUnit]
  }

  function UnitsOf(s: string): Units {
    if s == "" then [] else UnitsOfChar(s[0]) + UnitsOf(s[1..])
  }

  /** No surrogate is unpaired. */
  predicate WellFormed(u: Units) {
    u == []
    || (if Paired(u) then WellFormed(u[2..]) else !High(u[0]) && !Low(u[0]) && WellFormed(u[1..]))
  }

  lemma UnitsOfPair(high: CodeUnit, low: CodeUnit)
    requires High(high) && Low(low)
    ensures UnitsOfChar(PairValue(high, low)) == [high, low]
  {
  }

  /** What comes back of a JavaScript string is the string itself exactly when it has no unpaired surrogate. */
  lemma {:induction false} UnitsSurviveExactly(u: Units)
    ensures |UnitsOf(Scalars(u))| == |u|
    ensures UnitsOf(Scalars(u)) == u <==> WellFormed(u)
  {
    if u == [] {
    } else if Paired(u) {
      UnitsSurviveExactly(u[2..]);
      UnitsOfPair(u[0], u[1]);
      assert u == [u[0], u[1]] + u[2..];
      SameFront(UnitsOf(Scalars(u[2..])), u[2..], [u[0], u[1]]);
    } else {
      UnitsSurviveExactly(u[1..]);
      var c := Scalars(u)[0];
      assert UnitsOf(Scalars(u)) == UnitsOfChar(c) + UnitsOf(Scalars(u[1..]));
      assert u == [u[0]] + u[1..];
      SameFront(UnitsOf(Scalars(u[1..])), u[1..], [u[0]]);
      if High(u[0]) || Low(u[0]) { assert UnitsOf(Scalars(u))[0] != u[0]; }
    }
  }

  lemma SameFront(a: Units, b: Units, front: Units)
    ensures front + a == front + b <==> a == b
  {
    if front + a == front + b {
      assert a == (front + a)[|front|..] && b == (front + b)[|front|..];
    }
  }

  /** Every scalar string is what its own code units say. */
  lemma {:induction false} ScalarsOfUnits(s: string)
    ensures Scalars(UnitsOf(s)) == s && WellFormed(UnitsOf(s))
  {
    if s == "" {
    } else {
      ScalarsOfUnits(s[1..]);
      var units := UnitsOfChar(s[0]);
      assert UnitsOf(s)[|units|..] == UnitsOf(s[1..]);
      assert s == [s[0]] + s[1..];
    }
  }
}
