/** Durations in whole seconds, and their text form: a number and one of the units s, m, h, d. */
module Durations {
  import opened Common
  import opened Text

  datatype ParseError = Empty | BadSyntax

  /** That many units, in seconds. */
  function Scaled(n: nat, unit: char): nat {
    match unit
    case 'd' => n * 86400
    case 'h' => n * 3600
    case 'm' => n * 60
    case _ => n
  }

  predicate IsUnit(c: char) { c in "smhd" }

  /** A numeral with a unit behind it. */
  predicate HasForm(v: string) {
    |v| >= 2 && IsNumeral(v[..|v| - 1]) && IsUnit(v[|v| - 1])
  }

  function Parse(s: string): Result<nat, ParseError> {
    var v := Strip(s);
    if v == [] then Err(Empty)
    else if !HasForm(v) then Err(BadSyntax)
    else Ok(Scaled(ToNat(v[..|v| - 1]), v[|v| - 1]))
  }

  /** The largest unit that divides the duration. */
  function Print(seconds: nat): string {
    if seconds % 86400 == 0 && seconds >= 86400 then Decimal(seconds / 86400) + "d"
    else if seconds % 3600 == 0 && seconds >= 3600 then Decimal(seconds / 3600) + "h"
    else if seconds % 60 == 0 && seconds >= 60 then Decimal(seconds / 60) + "m"
    else Decimal(seconds) + "s"
  }

  lemma ParseNumeral(n: nat, unit: char)
    requires IsUnit(unit)
    ensures Parse(Decimal(n) + [unit]) == Ok(Scaled(n, unit))
  {
    var v := Decimal(n) + [unit];
    assert !IsSpace(v[0]) by { assert v[0] == Decimal(n)[0] && IsDigit(v[0]); }
    assert !IsSpace(v[|v| - 1]);
    StripKeeps(v);
    assert v[..|v| - 1] == Decimal(n);
    DecimalToNat(n);
  }

  /** A duration is printed in the largest unit that it is a positive multiple of. */
  lemma PrintForm(seconds: nat) returns (n: nat, unit: char)
    ensures IsUnit(unit) && Print(seconds) == Decimal(n) + [unit] && Scaled(n, unit) == seconds
    ensures unit == 'd' <==> seconds > 0 && seconds % 86400 == 0
    ensures unit == 'h' <==> seconds % 86400 != 0 && seconds % 3600 == 0
    ensures unit == 'm' <==> seconds % 3600 != 0 && seconds % 60 == 0
  {
    if seconds % 86400 == 0 && seconds >= 86400 {
      n, unit := seconds / 86400, 'd';
    } else if seconds % 3600 == 0 && seconds >= 3600 {
      n, unit := seconds / 3600, 'h';
    } else if seconds % 60 == 0 && seconds >= 60 {
      n, unit := seconds / 60, 'm';
    } else {
      n, unit := seconds, 's';
    }
  }

  /** Parsing a printed duration gives it back, for every whole number of seconds. */
  lemma ParsePrint(seconds: nat)
    ensures Parse(Print(seconds)) == Ok(seconds)
  {
    var n, unit := PrintForm(seconds);
    ParseNumeral(n, unit);
  }

  /** Printing separates durations, so two durations that print alike are equal. */
  lemma PrintIsInjective(a: nat, b: nat)
    ensures Print(a) == Print(b) <==> a == b
  {
    ParsePrint(a);
    ParsePrint(b);
  }

  lemma ScaledIs(n: nat)
    ensures Scaled(n, 's') == n && Scaled(n, 'm') == n * 60 && Scaled(n, 'h') == n * 60 * 60
    ensures Scaled(n, 'd') == n * 24 * 60 * 60
  {
  }

  /** What a numeral with a unit stands for. */
  lemma UnitsMean(n: nat, unit: char, seconds: nat)
    requires (unit == 's' && seconds == n) || (unit == 'm' && seconds == n * 60)
             || (unit == 'h' && seconds == n * 60 * 60) || (unit == 'd' && seconds == n * 24 * 60 * 60)
    ensures Parse(Decimal(n) + [unit]) == Ok(seconds)
  {
    ScaledIs(n);
    ParseNumeral(n, unit);
  }
}
