/**
 The rule-driven WHOIS parser: the first rule that matches and whose capture converts wins. The regular
 expression engine and the date conversion are functions supplied from outside.
 */
module Whois {
  import opened Common

  datatype DateFormat = Iso8601 | Rfc3339 | DdMmmYyyy | YyyyMmDd | EpochSeconds | Custom

  datatype ParseRule = ParseRule(tld: string, regex: string, dateFormat: DateFormat, timezone: string,
                                 strptime: Option<string>)

  /**
   `groups` counts the capture groups of a pattern, `search` is the first group of the first match,
   `convert` turns a capture into a date or fails, `registered` lists the registration dates of a text.
   */
  datatype Engine = Engine(
    groups: string -> int,
    search: (string, string) -> Option<string>,
    convert: (string, ParseRule) -> Option<Instant>,
    registered: string -> seq<string>
  )

  datatype Outcome = Date(at: Instant) | ConversionFailed | NoMatch

  predicate Applies(en: Engine, raw: string, tld: string, rule: ParseRule) {
    rule.tld == tld && en.search(rule.regex, raw).Some?
  }

  /** The date a matching rule reads out of the text. */
  function DateOf(en: Engine, raw: string, rule: ParseRule): Option<Instant>
    requires en.search(rule.regex, raw).Some?
  {
    en.convert(en.search(rule.regex, raw).value, rule)
  }

  /** The parse of a text by a list of rules, decided from the front. */
  function Parse(en: Engine, raw: string, tld: string, rules: seq<ParseRule>): Outcome {
    if rules == [] then NoMatch
    else
      var rest := Parse(en, raw, tld, rules[1..]);
      if !Applies(en, raw, tld, rules[0]) then rest
      else
        match DateOf(en, raw, rules[0])
        case Some(at) => Date(at)
        case None => if rest.Date? then rest else ConversionFailed
  }

  /** The loop of the parser; a conversion error is remembered and a later rule may still succeed. */
  method ParseWithRules(en: Engine, raw: string, tld: string, rules: seq<ParseRule>) returns (r: Outcome)
    ensures r == Parse(en, raw, tld, rules)
  {
    var failed := false;
    for k := 0 to |rules|
      invariant Parse(en, raw, tld, rules)
             == var rest := Parse(en, raw, tld, rules[k..]);
                if failed && !rest.Date? then ConversionFailed else rest
    {
      assert rules[k..][1..] == rules[k + 1..];
      if rules[k].tld != tld {
        continue;
      }
      var found := en.search(rules[k].regex, raw);
      if found.None? {
        continue;
      }
      var converted := en.convert(found.value, rules[k]);
      if converted.Some? {
        return Date(converted.value);
      }
      failed := true;
    }
    return if failed then ConversionFailed else NoMatch;
  }

  // ------------------------------------------------------------------- lemmas

  /** Only a list none of whose rules matches falls through. */
  lemma {:induction false} NoMatchIff(en: Engine, raw: string, tld: string, rules: seq<ParseRule>)
    ensures Parse(en, raw, tld, rules) == NoMatch <==>
            forall k :: 0 <= k < |rules| ==> !Applies(en, raw, tld, rules[k])
  {
    if rules != [] {
      NoMatchIff(en, raw, tld, rules[1..]);
      assert forall k :: 1 <= k < |rules| ==> rules[k] == rules[1..][k - 1];
    }
  }

  /** The first rule that matches and converts decides, whatever failed to convert before it. */
  lemma {:induction false} FirstDateWins(en: Engine, raw: string, tld: string, rules: seq<ParseRule>, k: nat)
    requires k < |rules| && Applies(en, raw, tld, rules[k]) && DateOf(en, raw, rules[k]).Some?
    requires forall j :: 0 <= j < k && Applies(en, raw, tld, rules[j]) ==> DateOf(en, raw, rules[j]).None?
    ensures Parse(en, raw, tld, rules) == Date(DateOf(en, raw, rules[k]).value)
  {
    if k > 0 {
      assert rules[1..][k - 1] == rules[k];
      assert forall j :: 0 <= j < k - 1 ==> rules[1..][j] == rules[j + 1];
      FirstDateWins(en, raw, tld, rules[1..], k - 1);
    }
  }

  /** The rule is for the TLD, matches the text, and its capture converts to this date. */
  predicate Reads(en: Engine, raw: string, tld: string, rule: ParseRule, at: Instant) {
    var capture := en.search(rule.regex, raw);
    rule.tld == tld && capture.Some? && en.convert(capture.value, rule) == Some(at)
  }

  ghost predicate ReadsNothing(en: Engine, raw: string, tld: string, rule: ParseRule) {
    forall at :: !Reads(en, raw, tld, rule, at)
  }

  /** Rule `k` is the first of the list to read a date. */
  ghost predicate FirstToRead(en: Engine, raw: string, tld: string, rules: seq<ParseRule>, k: nat, at: Instant) {
    && k < |rules| && Reads(en, raw, tld, rules[k], at)
    && forall j :: 0 <= j < k ==> ReadsNothing(en, raw, tld, rules[j])
  }

  lemma ReadsNothingIff(en: Engine, raw: string, tld: string, rule: ParseRule)
    ensures ReadsNothing(en, raw, tld, rule) <==> !Applies(en, raw, tld, rule) || DateOf(en, raw, rule).None?
  {
    if Applies(en, raw, tld, rule) && DateOf(en, raw, rule).Some? {
      assert Reads(en, raw, tld, rule, DateOf(en, raw, rule).value);
    }
  }

  /** No date is invented: a parsed date was read by some rule, and no rule before it reads one. */
  lemma {:induction false} DateWasRead(en: Engine, raw: string, tld: string, rules: seq<ParseRule>) returns (k: nat)
    requires Parse(en, raw, tld, rules).Date?
    ensures FirstToRead(en, raw, tld, rules, k, Parse(en, raw, tld, rules).at)
  {
    ReadsNothingIff(en, raw, tld, rules[0]);
    if Applies(en, raw, tld, rules[0]) && DateOf(en, raw, rules[0]).Some? {
      k := 0;
    } else {
      var i := DateWasRead(en, raw, tld, rules[1..]);
      k := i + 1;
      assert forall j :: 1 <= j < |rules| ==> rules[j] == rules[1..][j - 1];
    }
  }

  /** A parse gives a date exactly when some rule reads it and no rule before that reads any. */
  lemma DateIff(en: Engine, raw: string, tld: string, rules: seq<ParseRule>, at: Instant)
    ensures Parse(en, raw, tld, rules) == Date(at) <==> exists k :: FirstToRead(en, raw, tld, rules, k, at)
  {
    if Parse(en, raw, tld, rules) == Date(at) {
      var k := DateWasRead(en, raw, tld, rules);
    }
    if k :| FirstToRead(en, raw, tld, rules, k, at) {
      forall j | 0 <= j < k && Applies(en, raw, tld, rules[j])
        ensures DateOf(en, raw, rules[j]).None?
      {
        ReadsNothingIff(en, raw, tld, rules[j]);
      }
      FirstDateWins(en, raw, tld, rules, k);
    }
  }

  /** It ends in the conversion error exactly when some rule matches and no rule that matches converts. */
  lemma ConversionFailedIff(en: Engine, raw: string, tld: string, rules: seq<ParseRule>)
    ensures Parse(en, raw, tld, rules) == ConversionFailed <==>
            && (exists k :: 0 <= k < |rules| && Applies(en, raw, tld, rules[k]))
            && (forall k :: 0 <= k < |rules| ==> ReadsNothing(en, raw, tld, rules[k]))
  {
    NoMatchIff(en, raw, tld, rules);
    if Parse(en, raw, tld, rules).Date? {
      var k := DateWasRead(en, raw, tld, rules);
    } else if k :| 0 <= k < |rules| && !ReadsNothing(en, raw, tld, rules[k]) {
      SomeDate(en, raw, tld, rules, k);
    }
  }

  /** One rule that reads a date is enough. */
  lemma {:induction false} SomeDate(en: Engine, raw: string, tld: string, rules: seq<ParseRule>, k: nat)
    requires k < |rules| && !ReadsNothing(en, raw, tld, rules[k])
    ensures Parse(en, raw, tld, rules).Date?
  {
    ReadsNothingIff(en, raw, tld, rules[0]);
    if k > 0 {
      assert rules[1..][k - 1] == rules[k];
      SomeDate(en, raw, tld, rules[1..], k - 1);
    }
  }

  /** What two lists of rules come to, the first one tried first. */
  function Both(first: Outcome, second: Outcome): Outcome {
    if first.Date? || second == NoMatch then first
    else if second.Date? then second
    else ConversionFailed
  }

  lemma {:induction false} ParseAppend(en: Engine, raw: string, tld: string, a: seq<ParseRule>, b: seq<ParseRule>)
    ensures Parse(en, raw, tld, a + b) == Both(Parse(en, raw, tld, a), Parse(en, raw, tld, b))
  {
    if a == [] {
      assert a + b == b;
    } else {
      assert (a + b)[1..] == a[1..] + b;
      ParseAppend(en, raw, tld, a[1..], b);
    }
  }
}
