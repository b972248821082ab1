/** String routines of the host language that the codecs rely on. */
module Text {
  import opened Common

  /** What `str.strip()` removes at both ends. */
  predicate IsSpace(c: char) {
    || '\t' <= c <= '\r' || '\U{1C}' <= c <= ' ' || c == '\U{85}' || c == '\U{A0}' || c == '\U{1680}'
    || '\U{2000}' <= c <= '\U{200A}' || c == '\U{2028}' || c == '\U{2029}' || c == '\U{202F}'
    || c == '\U{205F}' || c == '\U{3000}'
  }

  function StripLeft(s: string): (r: string)
    ensures r == [] || !IsSpace(r[0])
    ensures |r| <= |s| && r == s[|s| - |r|..]
    ensures s == [] || !IsSpace(s[0]) ==> r == s
  {
    if s != [] && IsSpace(s[0]) then
      var r := StripLeft(s[1..]);
      assert s[1..][|s| - 1 - |r|..] == s[|s| - |r|..];
      r
    else s
  }

  function StripRight(s: string): (r: string)
    ensures r == [] || !IsSpace(r[|r| - 1])
    ensures r <= s
    ensures s == [] || !IsSpace(s[|s| - 1]) ==> r == s
  {
    if s != [] && IsSpace(s[|s| - 1]) then StripRight(s[..|s| - 1]) else s
  }

  function Strip(s: string): string { StripRight(StripLeft(s)) }

  /** `s.rstrip(c)`. */
  function TrimRight(s: string, c: char): (r: string)
    ensures r == [] || r[|r| - 1] != c
    ensures r <= s
    ensures s == [] || s[|s| - 1] != c ==> r == s
  {
    if s != [] && s[|s| - 1] == c then TrimRight(s[..|s| - 1], c) else s
  }

  lemma StripKeeps(s: string)
    requires s != [] && !IsSpace(s[0]) && !IsSpace(s[|s| - 1])
    ensures Strip(s) == s
  {
  }

  /** A stripped string neither starts nor ends with a space. */
  lemma StripEnds(s: string)
    ensures var r := Strip(s); r == [] || (!IsSpace(r[0]) && !IsSpace(r[|r| - 1]))
  {
    var l, r := StripLeft(s), Strip(s);
    if r != [] {
      assert r[0] == l[0];
    }
  }

  // ----------------------------------------------------------- split and join

  function Join(parts: seq<string>, sep: char): string {
    if parts == [] then ""
    else if |parts| == 1 then parts[0]
    else parts[0] + [sep] + Join(parts[1..], sep)
  }

  /** The part of `s` before the first separator. */
  function Head(s: string, sep: char): (r: string)
    ensures r <= s && sep !in r
    ensures |r| < |s| ==> s[|r|] == sep
  {
    if s == [] || s[0] == sep then [] else [s[0]] + Head(s[1..], sep)
  }

  function Split(s: string, sep: char): (parts: seq<string>)
    ensures parts != [] && forall p :: p in parts ==> sep !in p
    decreases |s|
  {
    var h := Head(s, sep);
    if |h| == |s| then [h] else [h] + Split(s[|h| + 1..], sep)
  }

  lemma {:induction false} HeadOfPart(a: string, rest: string, sep: char)
    requires sep !in a && (rest == [] || rest[0] == sep)
    ensures Head(a + rest, sep) == a
  {
    if a == [] {
      assert a + rest == rest;
    } else {
      assert (a + rest)[1..] == a[1..] + rest;
      HeadOfPart(a[1..], rest, sep);
    }
  }

  lemma SplitWhole(a: string, sep: char)
    requires sep !in a
    ensures Split(a, sep) == [a]
  {
    HeadOfPart(a, [], sep);
    assert a + [] == a;
  }

  lemma SplitPart(a: string, rest: string, sep: char)
    requires sep !in a
    ensures Split(a + ([sep] + rest), sep) == [a] + Split(rest, sep)
  {
    var s := a + ([sep] + rest);
    HeadOfPart(a, [sep] + rest, sep);
    assert |a| < |s| && s[|a| + 1..] == rest;
    assert Split(s, sep) == [a] + Split(s[|a| + 1..], sep);
  }

  lemma JoinMore(parts: seq<string>, sep: char)
    requires |parts| > 1
    ensures Join(parts, sep) == parts[0] + ([sep] + Join(parts[1..], sep))
  {
    assert parts[0] + [sep] + Join(parts[1..], sep) == parts[0] + ([sep] + Join(parts[1..], sep));
  }

  /** Splitting undoes joining when no part contains the separator. */
  lemma {:induction false} SplitJoin(parts: seq<string>, sep: char)
    requires parts != [] && forall p :: p in parts ==> sep !in p
    ensures Split(Join(parts, sep), sep) == parts
  {
    var head, tail := parts[0], parts[1..];
    assert sep !in head;
    if tail == [] {
      SplitWhole(head, sep);
      assert parts == [head];
    } else {
      calc {
        Split(Join(parts, sep), sep);
      == { JoinMore(parts, sep); }
        Split(head + ([sep] + Join(tail, sep)), sep);
      == { SplitPart(head, Join(tail, sep), sep); }
        [head] + Split(Join(tail, sep), sep);
      == { SplitJoin(tail, sep); }
        [head] + tail;
      ==
        parts;
      }
    }
  }

  // ------------------------------------------------------------------ decimals

  predicate IsDigit(c: char) { '0' <= c <= '9' }

  function Digit(c: char): nat
    requires IsDigit(c)
  {
    c as int - '0' as int
  }

  function DigitChar(d: nat): (c: char)
    requires d < 10
    ensures IsDigit(c) && Digit(c) == d
  {
    ('0' as int + d) as char
  }

  predicate IsNumeral(s: string) {
    s != [] && forall i :: 0 <= i < |s| ==> IsDigit(s[i])
  }

  /** `int(s)` for a string of digits. */
  function ToNat(s: string): nat
    requires IsNumeral(s)
  {
    var last := Digit(s[|s| - 1]);
    if |s| == 1 then last else ToNat(s[..|s| - 1]) * 10 + last
  }

  /** `str(n)`. */
  function Decimal(n: nat): (s: string)
    ensures IsNumeral(s)
  {
    if n < 10 then [DigitChar(n)] else Decimal(n / 10) + [DigitChar(n % 10)]
  }

  lemma {:induction false} DecimalToNat(n: nat)
    ensures ToNat(Decimal(n)) == n
  {
    if n >= 10 {
      DecimalToNat(n / 10);
      assert Decimal(n)[..|Decimal(n)| - 1] == Decimal(n / 10);
    }
  }

  /** The digits of a numeral whose digit groups single underscores may separate. */
  function Ungrouped(s: string): Option<string> {
    if s == [] then None
    else
      var last, before := s[|s| - 1], s[..|s| - 1];
      if !IsDigit(last) then None
      else if before == [] then Some([last])
      else
        var digits := Ungrouped(if before[|before| - 1] == '_' then before[..|before| - 1] else before);
        if digits.None? then None else Some(digits.value + [last])
  }

  lemma {:induction false} UngroupedIsNumeral(s: string)
    ensures Ungrouped(s).Some? ==> IsNumeral(Ungrouped(s).value)
  {
    if s != [] && IsDigit(s[|s| - 1]) && |s| > 1 {
      var before := s[..|s| - 1];
      UngroupedIsNumeral(if before[|before| - 1] == '_' then before[..|before| - 1] else before);
    }
  }

  lemma {:induction false} NumeralIsUngrouped(s: string)
    requires IsNumeral(s)
    ensures Ungrouped(s) == Some(s)
  {
    assert s == s[..|s| - 1] + [s[|s| - 1]];
    if |s| > 1 {
      NumeralIsUngrouped(s[..|s| - 1]);
    }
  }

  /** `int(s)`: surrounding space, a sign, and underscores between digits are allowed. */
  function IntOf(s: string): Option<int> {
    var t := Strip(s);
    var signed := t != [] && (t[0] == '+' || t[0] == '-');
    var digits := Ungrouped(if signed then t[1..] else t);
    if digits.None? then None
    else
      UngroupedIsNumeral(if signed then t[1..] else t);
      var n: int := ToNat(digits.value);
      Some(if signed && t[0] == '-' then -n else n)
  }

  lemma DecimalIsInt(n: nat)
    ensures IntOf(Decimal(n)) == Some(n)
  {
    var s := Decimal(n);
    assert IsDigit(s[0]) && IsDigit(s[|s| - 1]);
    StripKeeps(s);
    NumeralIsUngrouped(s);
    DecimalToNat(n);
  }

  // --------------------------------------------------------------------- fields

  /** Number of whitespace-separated fields. */
  function FieldCount(s: string): nat {
    if s == [] then 0
    else
      var last := |s| - 1;
      FieldCount(s[..last]) + if !IsSpace(s[last]) && (last == 0 || IsSpace(s[last - 1])) then 1 else 0
  }

  /** A field begins with each character that is no space and follows a space or nothing. */
  lemma FieldsGrow(s: string, c: char)
    ensures FieldCount([]) == 0
    ensures FieldCount(s + [c]) == FieldCount(s) + One(!IsSpace(c) && (s == [] || IsSpace(s[|s| - 1])))
  {
    assert (s + [c])[..|s|] == s && (s + [c])[|s|] == c;
    assert s != [] ==> (s + [c])[|s| - 1] == s[|s| - 1];
  }
}
