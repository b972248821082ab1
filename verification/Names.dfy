/**
 Domain names in the preferred syntax of RFC 1035, sections 2.3.1 and 2.3.4: lower-case labels of
 letters, digits and hyphens, at most 63 octets each and 253 in all.
 */
module Names {
  import opened Common
  import opened Text

  datatype NameError = EmptyName | NotIdna | NameTooLong | EmptyLabel | LabelTooLong | BadLabel

  predicate IsAscii(s: string) { forall i :: 0 <= i < |s| ==> s[i] < '\U{80}' }

  function LowerChar(c: char): char {
    if 'A' <= c <= 'Z' then (c as int + 32) as char else c
  }

  function Lower(s: string): (r: string)
    ensures |r| == |s|
  {
    seq(|s|, i requires 0 <= i < |s| => LowerChar(s[i]))
  }

  predicate IsAlnum(c: char) { 'a' <= c <= 'z' || '0' <= c <= '9' }

  /** A label of RFC 1035, section 2.3.1. */
  predicate StrictLabel(l: string) {
    && 1 <= |l| <= 63
    && IsAlnum(l[0]) && IsAlnum(l[|l| - 1])
    && forall i :: 0 <= i < |l| ==> IsAlnum(l[i]) || l[i] == '-'
  }

  /** The source's pattern ends in `$`, which also matches in front of one final newline. */
  predicate MatchesLabel(l: string) {
    StrictLabel(l) || (l != [] && l[|l| - 1] == '\n' && StrictLabel(l[..|l| - 1]))
  }

  function CheckLabel(l: string): Option<NameError> {
    if l == [] then Some(EmptyLabel)
    else if |l| > 63 then Some(LabelTooLong)
    else if !MatchesLabel(l) then Some(BadLabel)
    else None
  }

  function CheckLabels(labels: seq<string>): Option<NameError> {
    if labels == [] then None
    else if CheckLabel(labels[0]).Some? then CheckLabel(labels[0])
    else CheckLabels(labels[1..])
  }

  /** Surrounding space and trailing dots removed. */
  function Trimmed(raw: string): string { TrimRight(Strip(raw), '.') }

  /** ASCII text stays, other text goes through the library's encoder, which answers in ASCII or fails. */
  function Encoded(s: string, idna: string -> Option<string>): Option<string> {
    if IsAscii(s) then Some(s) else idna(s)
  }

  /** The length and label checks on a name in its final form. */
  function Checked(v: string): (r: Result<string, NameError>)
    ensures r.Ok? ==> r.value == v
  {
    if |v| > 253 then Err(NameTooLong)
    else
      var bad := CheckLabels(Split(v, '.'));
      if bad.Some? then Err(bad.value) else Ok(v)
  }

  /** The normal form of a name. */
  function Normalise(raw: string, idna: string -> Option<string>): Result<string, NameError> {
    var s := Trimmed(raw);
    if s == [] then Err(EmptyName)
    else
      match Encoded(s, idna)
      case None => Err(NotIdna)
      case Some(v) => Checked(Lower(v))
  }

  const DOUBLE_TLDS: set<string> := {"co.uk", "com.br", "co.jp", "org.uk", "gov.uk"}

  /** The effective top-level domain of a normalised name. */
  function Tld(name: string): string {
    var labels := Split(name, '.');
    if |labels| >= 2 && labels[|labels| - 2] + "." + labels[|labels| - 1] in DOUBLE_TLDS
    then labels[|labels| - 2] + "." + labels[|labels| - 1]
    else labels[|labels| - 1]
  }

  // ------------------------------------------------------------------- lemmas

  predicate NameChar(c: char) { IsAlnum(c) || c == '-' || c == '.' || c == '\n' }

  lemma {:induction false} CheckLabelsIff(labels: seq<string>)
    ensures CheckLabels(labels).None? <==> forall l :: l in labels ==> CheckLabel(l).None?
  {
    if labels != [] {
      CheckLabelsIff(labels[1..]);
      assert forall l :: l in labels <==> l == labels[0] || l in labels[1..];
    }
  }

  lemma {:induction false} CharsOfSplit(v: string)
    requires forall l :: l in Split(v, '.') ==> forall i :: 0 <= i < |l| ==> NameChar(l[i])
    ensures forall i :: 0 <= i < |v| ==> NameChar(v[i])
    decreases |v|
  {
    var h := Head(v, '.');
    assert Split(v, '.')[0] == h && h in Split(v, '.');
    if |h| < |v| {
      var rest := v[|h| + 1..];
      assert forall l :: l in Split(rest, '.') ==> l in Split(v, '.');
      CharsOfSplit(rest);
      forall i | 0 <= i < |v|
        ensures NameChar(v[i])
      {
        if i < |h| {
          assert v[i] == h[i];
        } else if i > |h| {
          assert v[i] == rest[i - |h| - 1];
        }
      }
    } else {
      assert v == h;
    }
  }

  lemma {:induction false} LastOfSplit(v: string)
    requires v != []
    ensures var labels := Split(v, '.');
            if v[|v| - 1] == '.' then [] in labels
            else labels[|labels| - 1] != [] && labels[|labels| - 1][|labels[|labels| - 1]| - 1] == v[|v| - 1]
    decreases |v|
  {
    var h := Head(v, '.');
    if |h| < |v| {
      var rest := v[|h| + 1..];
      if rest != [] {
        LastOfSplit(rest);
        assert rest[|rest| - 1] == v[|v| - 1];
      } else {
        assert Split(v, '.') == [h] + [[]];
      }
    } else {
      assert v == h;
    }
  }

  lemma LabelShape(l: string)
    requires CheckLabel(l).None?
    ensures l != [] && IsAlnum(l[0])
    ensures forall i :: 0 <= i < |l| ==> NameChar(l[i]) && l[i] != '.'
  {
    if !StrictLabel(l) {
      var m := l[..|l| - 1];
      assert forall i :: 0 <= i < |m| ==> l[i] == m[i];
    }
  }

  /** The characters of an accepted name, its first one, and that it does not end in a dot. */
  lemma NameShape(v: string)
    requires v != [] && CheckLabels(Split(v, '.')).None?
    ensures forall i :: 0 <= i < |v| ==> NameChar(v[i])
    ensures IsAlnum(v[0]) && v[|v| - 1] != '.'
  {
    CheckLabelsIff(Split(v, '.'));
    forall l | l in Split(v, '.')
      ensures l != [] && forall i :: 0 <= i < |l| ==> NameChar(l[i])
    {
      LabelShape(l);
    }
    CharsOfSplit(v);
    LastOfSplit(v);
    var first := Head(v, '.');
    assert Split(v, '.')[0] == first && CheckLabel(first).None?;
    LabelShape(first);
    assert v[0] == first[0];
  }

  lemma NameCharsAreNormal(v: string)
    requires forall i :: 0 <= i < |v| ==> NameChar(v[i])
    ensures IsAscii(v) && Lower(v) == v
  {
  }

  /** An accepted name that ends in no newline is its own normal form. */
  lemma CleanNameIsNormal(v: string, idna: string -> Option<string>)
    requires v != [] && Checked(v).Ok? && v[|v| - 1] != '\n'
    ensures Normalise(v, idna) == Ok(v)
  {
    NameShape(v);
    NameCharsAreNormal(v);
    assert Trimmed(v) == v by {
      assert NameChar(v[|v| - 1]);
      StripKeeps(v);
    }
  }

  lemma TrimmedIsShorter(v: string)
    requires v != [] && !IsSpace(v[0]) && v[|v| - 1] == '\n'
    ensures Trimmed(v) <= v && |Trimmed(v)| < |v|
  {
    assert StripLeft(v) == v;
    StripEnds(v);
  }

  /** A name that ends in a newline cannot come out of `Normalise` unchanged. */
  lemma NewlineIsStripped(v: string, idna: string -> Option<string>)
    requires v != [] && Checked(v).Ok? && v[|v| - 1] == '\n'
    ensures Normalise(v, idna) != Ok(v)
  {
    var s := Trimmed(v);
    NameShape(v);
    TrimmedIsShorter(v);
    assert forall i :: 0 <= i < |s| ==> s[i] == v[i];
    NameCharsAreNormal(s);
  }

  lemma LowerKeepsNewlines(s: string)
    requires s != []
    ensures Lower(s)[|s| - 1] == '\n' <==> s[|s| - 1] == '\n'
  {
  }

  /** Either an accepted name ends in no newline and is its own normal form, or it ends in one and is not. */
  lemma NormalFormIff(v: string, idna: string -> Option<string>)
    requires v != [] && Checked(v).Ok?
    ensures Normalise(v, idna) == Ok(v) <==> v[|v| - 1] != '\n'
  {
    if v[|v| - 1] != '\n' {
      CleanNameIsNormal(v, idna);
    } else {
      NewlineIsStripped(v, idna);
    }
  }

  /** What the text is before it is put in lower case. */
  function Form(raw: string, idna: string -> Option<string>): Option<string> { Encoded(Trimmed(raw), idna) }

  lemma AcceptedForm(raw: string, idna: string -> Option<string>)
    requires Normalise(raw, idna).Ok?
    ensures Form(raw, idna).Some? && Form(raw, idna).value != []
    ensures Normalise(raw, idna).value == Lower(Form(raw, idna).value) && Checked(Normalise(raw, idna).value).Ok?
  {
    assert Split([], '.')[0] == [];
  }

  /**
   Normalising an accepted text a second time changes nothing if and only if the text, stripped of space and
   trailing dots and encoded, does not end in a newline: the label pattern lets one newline through at the
   end of a label. For ASCII text the encoding does nothing.
   */
  lemma NormaliseTwice(raw: string, idna: string -> Option<string>)
    requires Normalise(raw, idna).Ok?
    ensures Form(raw, idna).Some? && Form(raw, idna).value != []
    ensures var v, form := Normalise(raw, idna).value, Form(raw, idna).value;
            Normalise(v, idna) == Ok(v) <==> form[|form| - 1] != '\n'
    ensures IsAscii(Trimmed(raw)) ==> Form(raw, idna) == Some(Trimmed(raw))
  {
    AcceptedForm(raw, idna);
    LowerKeepsNewlines(Form(raw, idna).value);
    NormalFormIff(Normalise(raw, idna).value, idna);
  }

  /** Such names exist: a newline in front of a trailing dot survives the stripping. */
  lemma NewlineSurvives(part: string, idna: string -> Option<string>)
    requires StrictLabel(part) && |part| < 63
    ensures Normalise(part + "\n.", idna) == Ok(part + "\n")
  {
    var raw, v := part + "\n.", part + "\n";
    assert raw[..|raw| - 1] == v;
    StripKeeps(raw);
    assert TrimRight(raw, '.') == v;
    assert v[..|v| - 1] == part;
    NameCharsAreNormal(v);
    assert v + [] == v;
    HeadOfPart(v, [], '.');
    assert Split(v, '.') == [v];
    assert CheckLabels([v][1..]).None?;
  }

  /** A letter or digit, in lower case. */
  predicate Plain(c: char) { 'a' <= c <= 'z' || '0' <= c <= '9' }

  /** Letters, digits, and hyphens inside. */
  predicate GoodBody(l: string) {
    && 1 <= |l| && Plain(l[0]) && Plain(l[|l| - 1])
    && forall i :: 0 <= i < |l| ==> Plain(l[i]) || l[i] == '-'
  }

  /** At most 63 characters, a final newline included. */
  predicate GoodLabel(l: string) {
    |l| <= 63 && GoodBody(if l != [] && l[|l| - 1] == '\n' then l[..|l| - 1] else l)
  }

  lemma GoodBodyIff(l: string)
    ensures |l| <= 63 && GoodBody(l) <==> StrictLabel(l)
  {
  }

  lemma GoodLabelIff(l: string)
    ensures CheckLabel(l).None? <==> GoodLabel(l)
  {
    GoodBodyIff(l);
    if l != [] && l[|l| - 1] == '\n' {
      GoodBodyIff(l[..|l| - 1]);
    }
  }

  /** The text with its capital letters made small. */
  predicate IsLowered(v: string, form: string) {
    && |v| == |form|
    && forall i :: 0 <= i < |v| ==>
         if 'A' <= form[i] <= 'Z' then v[i] as int == form[i] as int + 'a' as int - 'A' as int else v[i] == form[i]
  }

  lemma LoweredIs(v: string, form: string)
    ensures IsLowered(v, form) <==> v == Lower(form)
  {
  }

  /**
   What is accepted, and as what: the text, stripped of space and trailing dots and encoded, in small
   letters, if it has 253 characters at most and every label is good.
   */
  lemma AcceptedIff(raw: string, idna: string -> Option<string>, v: string)
    ensures Normalise(raw, idna) == Ok(v) <==>
            && Trimmed(raw) != "" && Form(raw, idna).Some? && IsLowered(v, Form(raw, idna).value)
            && |v| <= 253 && forall l :: l in Split(v, '.') ==> GoodLabel(l)
  {
    if Form(raw, idna).Some? {
      LoweredIs(v, Form(raw, idna).value);
    }
    CheckLabelsIff(Split(v, '.'));
    forall l | l in Split(v, '.')
      ensures CheckLabel(l).None? <==> GoodLabel(l)
    {
      GoodLabelIff(l);
    }
  }

  /** The top-level domain of a name of three labels: its last label, or the last two if they are a known pair. */
  lemma TldIs(host: string, first: string, second: string)
    requires '.' !in first && '.' !in second && '.' !in host
    ensures Tld(host + (['.'] + (first + (['.'] + second))))
         == if first + "." + second in {"co.uk", "com.br", "co.jp", "org.uk", "gov.uk"} then first + "." + second
            else second
  {
    SplitPart(host, first + (['.'] + second), '.');
    SplitPart(first, second, '.');
    SplitWhole(second, '.');
    assert Split(host + (['.'] + (first + (['.'] + second))), '.') == [host, first, second];
  }
}
