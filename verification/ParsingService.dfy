/**
 The parsing service: static rules, then learned rules, then, within the rate limits, a suggested rule
 that has to pass the validation pipeline before it is learned.
 */
module ParsingService {
  import opened Common
  import opened Whois
  import opened LearnedRules
  import opened ValidationPipeline
  import TokenBucket
  import Names

  datatype Reason = NoRule | RateHost | RateTld | SuggestionFailed | ValidationTransient | ValidationRejected
      | PostLearnFailure

  datatype Event =
    | ParseFailed(domain: string, reason: Reason, attempted: bool)
    | RuleLearned(id: nat, tld: string, sampleDomain: string)
    | RuleRevalidated(id: nat)
    | RuleInvalidated(id: nat)

  datatype Reply =
    | Parsed(at: Instant)
    | RaisedConversion
    | RaisedNoRule
    | RaisedSuggestion
    | RaisedValidation(gate: nat)
    | RaisedDuplicate
    | RaisedPostLearn

  /** What stays fixed. `fallback` says that a suggester and a pipeline are wired. */
  datatype Service = Service(
    en: Engine,
    staticRules: seq<ParseRule>,
    fallback: bool,
    hostLimits: Option<TokenBucket.Limits>,
    tldLimits: Option<TokenBucket.Limits>,
    host: string,
    suggesterId: string,
    pipelineVersion: int,
    settings: Settings,
    revalidateAfter: nat
  ) {
    predicate Valid() {
      && (hostLimits.Some? ==> hostLimits.value.Valid())
      && (tldLimits.Some? ==> tldLimits.value.Valid())
    }
  }

  /** What changes: the learned rows, the limiters' histories, the gate-5 cache, the published events. */
  datatype World = World(
    rows: Rows,
    hostCalls: seq<TokenBucket.Call>,
    tldCalls: seq<TokenBucket.Call>,
    cache: Cache,
    log: seq<Event>
  )

  const EMPTY := World([], [], [], map[], [])

  /** One parse: its text and domain, and what clock, suggester and WHOIS servers would answer. */
  datatype ParseCall = ParseCall(
    raw: string,
    domain: string,
    suggestion: Option<ParseRule>,
    hostNow: Instant,
    tldNow: Instant,
    now4: Instant,
    now5: Instant,
    fetch: string -> Fetch
  )

  function ForTldStatic(rules: seq<ParseRule>, tld: string): seq<ParseRule> {
    if rules == [] then []
    else
      var last := rules[|rules| - 1];
      ForTldStatic(rules[..|rules| - 1], tld) + if last.tld == tld then [last] else []
  }

  /** The outcome of the first two steps, which need no suggester. */
  function Known(svc: Service, rows: Rows, raw: string, domain: string): Outcome {
    var tld := Names.Tld(domain);
    var byStatic := Parse(svc.en, raw, tld, ForTldStatic(svc.staticRules, tld));
    if byStatic != NoMatch then byStatic else Parse(svc.en, raw, tld, ForTld(rows, tld))
  }

  function HostCalls(svc: Service, w: World, c: ParseCall): seq<TokenBucket.Call> {
    if svc.hostLimits.Some? then w.hostCalls + [TokenBucket.Call(svc.host, c.hostNow)] else w.hostCalls
  }

  predicate HostGrants(svc: Service, w: World, c: ParseCall)
    requires svc.Valid()
  {
    svc.hostLimits.Some? ==> TokenBucket.Granted(svc.hostLimits.value, HostCalls(svc, w, c))
  }

  function TldCalls(svc: Service, w: World, c: ParseCall): seq<TokenBucket.Call> {
    if svc.tldLimits.Some? then w.tldCalls + [TokenBucket.Call(Names.Tld(c.domain), c.tldNow)] else w.tldCalls
  }

  predicate TldGrants(svc: Service, w: World, c: ParseCall)
    requires svc.Valid()
  {
    svc.tldLimits.Some? ==> TokenBucket.Granted(svc.tldLimits.value, TldCalls(svc, w, c))
  }

  /** The call gets as far as the rate limiters. */
  predicate FallsThrough(svc: Service, w: World, c: ParseCall) {
    Known(svc, w.rows, c.raw, c.domain) == NoMatch && svc.fallback
  }

  /** The suggester is called. */
  predicate Asks(svc: Service, w: World, c: ParseCall)
    requires svc.Valid()
  {
    FallsThrough(svc, w, c) && HostGrants(svc, w, c) && TldGrants(svc, w, c)
  }

  function ValidationCall(rule: ParseRule, raw: string, domain: string, now4: Instant, now5: Instant): Call {
    Call(rule, raw, Names.Tld(domain), domain, now4, now5)
  }

  function VerdictOf(svc: Service, w: World, c: ParseCall): Verdict
    requires c.suggestion.Some?
  {
    Validated(svc.settings, svc.en, w.cache,
              ValidationCall(c.suggestion.value, c.raw, c.domain, c.now4, c.now5), c.fetch)
  }

  /** From the suggester's answer on. */
  function Learn(svc: Service, w: World, c: ParseCall): (World, Reply) {
    match c.suggestion
    case None => (w.(log := w.log + [ParseFailed(c.domain, SuggestionFailed, true)]), RaisedSuggestion)
    case Some(rule) =>
      var call := ValidationCall(rule, c.raw, c.domain, c.now4, c.now5);
      var w1 := w.(cache := CacheAfter(svc.settings, svc.en, w.cache, call, c.fetch));
      match VerdictOf(svc, w, c)
      case Transient => (w1.(log := w.log + [ParseFailed(c.domain, ValidationTransient, true)]), RaisedSuggestion)
      case Rejected(g) => (w1.(log := w.log + [ParseFailed(c.domain, ValidationRejected, true)]), RaisedValidation(g))
      case Accepted(_) => Persist(svc, w1, c, rule)
  }

  /** Store, announce, and parse once more with the new rule alone. */
  function Persist(svc: Service, w: World, c: ParseCall, rule: ParseRule): (World, Reply) {
    if Duplicate(w.rows, rule) then (w, RaisedDuplicate)
    else
      var row := NewRow(w.rows, rule, c.raw, c.domain, svc.suggesterId, svc.pipelineVersion);
      var w1 := w.(rows := w.rows + [row], log := w.log + [RuleLearned(row.id, rule.tld, c.domain)]);
      match Parse(svc.en, c.raw, Names.Tld(c.domain), [rule])
      case Date(at) => (w1, Parsed(at))
      case _ => (w1.(log := w1.log + [ParseFailed(c.domain, PostLearnFailure, true)]), RaisedPostLearn)
  }

  /** The rate limits, the host's first; the reason of the one that refuses. */
  function Limited(svc: Service, w: World, c: ParseCall): (World, Option<Reason>)
    requires svc.Valid()
  {
    var w1 := w.(hostCalls := HostCalls(svc, w, c));
    if !HostGrants(svc, w, c) then (w1, Some(RateHost))
    else (w1.(tldCalls := TldCalls(svc, w, c)), if TldGrants(svc, w, c) then None else Some(RateTld))
  }

  /** From the third step on: no known rule matches. */
  function FallBack(svc: Service, w: World, c: ParseCall): (World, Reply)
    requires svc.Valid()
  {
    if !svc.fallback then (w.(log := w.log + [ParseFailed(c.domain, NoRule, false)]), RaisedNoRule)
    else
      var (w1, refusal) := Limited(svc, w, c);
      if refusal.Some? then (w1.(log := w.log + [ParseFailed(c.domain, refusal.value, false)]), RaisedSuggestion)
      else Learn(svc, w1, c)
  }

  /** The whole parse as a function of the state. */
  function Step(svc: Service, w: World, c: ParseCall): (World, Reply)
    requires svc.Valid()
  {
    match Known(svc, w.rows, c.raw, c.domain)
    case Date(at) => (w, Parsed(at))
    case ConversionFailed => (w, RaisedConversion)
    case NoMatch => FallBack(svc, w, c)
  }

  // ------------------------------------------------------------------ known rules

  lemma {:induction false} StaticParsesAlike(en: Engine, raw: string, tld: string, rules: seq<ParseRule>)
    ensures Parse(en, raw, tld, ForTldStatic(rules, tld)) == Parse(en, raw, tld, rules)
  {
    if rules != [] {
      var before, last := rules[..|rules| - 1], rules[|rules| - 1];
      StaticParsesAlike(en, raw, tld, before);
      RuleMore(en, raw, tld, ForTldStatic(before, tld), last);
      RuleMore(en, raw, tld, before, last);
      assert rules == before + [last];
      assert last.tld != tld ==> ForTldStatic(rules, tld) == ForTldStatic(before, tld);
    }
  }

  /**
   The rules that are tried: the static ones, and only if none of them matches the learned ones that are
   enabled, oldest first. Picking out the rules of the TLD beforehand makes no difference.
   */
  lemma KnownIs(svc: Service, rows: Rows, raw: string, domain: string)
    ensures var tld := Names.Tld(domain);
            Known(svc, rows, raw, domain)
              == if exists k :: 0 <= k < |svc.staticRules| && Applies(svc.en, raw, tld, svc.staticRules[k])
                 then Parse(svc.en, raw, tld, svc.staticRules)
                 else Parse(svc.en, raw, tld, RulesOf(Enabled(rows)))
  {
    var tld := Names.Tld(domain);
    StaticParsesAlike(svc.en, raw, tld, svc.staticRules);
    OfferedParsesAlike(svc.en, raw, tld, rows);
    NoMatchIff(svc.en, raw, tld, svc.staticRules);
  }

  /** The rule is a static one, or that of an enabled row. */
  ghost predicate Available(svc: Service, rows: Rows, rule: ParseRule) {
    rule in svc.staticRules || exists row :: row in rows && !row.disabled && row.rule == rule
  }

  /** A known date was read from the text by a static or enabled rule of the domain's TLD. */
  lemma KnownDateWasRead(svc: Service, rows: Rows, raw: string, domain: string) returns (rule: ParseRule)
    requires Known(svc, rows, raw, domain).Date?
    ensures Available(svc, rows, rule)
    ensures Reads(svc.en, raw, Names.Tld(domain), rule, Known(svc, rows, raw, domain).at)
  {
    var tld := Names.Tld(domain);
    KnownIs(svc, rows, raw, domain);
    if exists k :: 0 <= k < |svc.staticRules| && Applies(svc.en, raw, tld, svc.staticRules[k]) {
      var k := DateWasRead(svc.en, raw, tld, svc.staticRules);
      rule := svc.staticRules[k];
    } else {
      var enabled := Enabled(rows);
      var k := DateWasRead(svc.en, raw, tld, RulesOf(enabled));
      rule := enabled[k].rule;
      EnabledIff(rows, enabled[k]);
    }
  }

  // --------------------------------------------------------- a passed rule works

  /** A rule that matches a text which no learned rule of its TLD matched is not in the store yet. */
  lemma NoClash(svc: Service, w: World, c: ParseCall, rule: ParseRule)
    requires Known(svc, w.rows, c.raw, c.domain) == NoMatch
    requires Applies(svc.en, c.raw, Names.Tld(c.domain), rule)
    ensures !Duplicate(w.rows, rule)
  {
    var tld := Names.Tld(c.domain);
    NoMatchIff(svc.en, c.raw, tld, ForTld(w.rows, tld));
    forall k | 0 <= k < |w.rows|
      ensures !Clashes(w.rows[k], rule)
    {
      ForTldIff(w.rows, tld, w.rows[k].rule);
    }
  }

  /**
   Once a suggested rule of the right TLD passes the pipeline, the parse cannot fail: the store accepts
   the rule, the only event says that it was learned, and the reply is the date that the gates checked.
   */
  lemma AcceptedMeansParsed(svc: Service, w: World, c: ParseCall)
    requires svc.Valid() && Asks(svc, w, c)
    requires c.suggestion.Some? && c.suggestion.value.tld == Names.Tld(c.domain)
    requires VerdictOf(svc, w, c).Accepted?
    ensures var (w', reply), date := Step(svc, w, c), VerdictOf(svc, w, c).date;
            && reply == Parsed(date)
            && c.now4 < date <= MaxFuture(c.now4, svc.settings.maxAgeYears) && !IsSentinel(date)
            && w'.rows == w.rows + [NewRow(w.rows, c.suggestion.value, c.raw, c.domain, svc.suggesterId,
                svc.pipelineVersion)]
            && w'.log == w.log + [RuleLearned(|w.rows| + 1, c.suggestion.value.tld, c.domain)]
  {
    var rule := c.suggestion.value;
    var call := ValidationCall(rule, c.raw, c.domain, c.now4, c.now5);
    AcceptedDate(svc.settings, svc.en, w.cache, call, c.fetch);
    NoClash(svc, w, c, rule);
    FirstDateWins(svc.en, c.raw, Names.Tld(c.domain), [rule], 0);
  }

  /** The converse: a call that asks and returns a date has learned the suggested rule. */
  lemma ParsedMeansLearned(svc: Service, w: World, c: ParseCall)
    requires svc.Valid() && Asks(svc, w, c) && Step(svc, w, c).1.Parsed?
    ensures c.suggestion.Some? && VerdictOf(svc, w, c).Accepted?
    ensures Applies(svc.en, c.raw, Names.Tld(c.domain), c.suggestion.value)
    ensures DateOf(svc.en, c.raw, c.suggestion.value) == Some(Step(svc, w, c).1.at)
    ensures Step(svc, w, c).0.rows
         == w.rows + [NewRow(w.rows, c.suggestion.value, c.raw, c.domain, svc.suggesterId, svc.pipelineVersion)]
  {
    var rule := c.suggestion.value;
    NoMatchIff(svc.en, c.raw, Names.Tld(c.domain), [rule]);
    assert [rule][1..] == [];
  }

  // ----------------------------------------------------- how a parse fails, and what it tells

  /** The suggester has answered, and the gates have passed its rule. */
  predicate Passed(svc: Service, w: World, c: ParseCall)
    requires svc.Valid()
  {
    Asks(svc, w, c) && c.suggestion.Some? && VerdictOf(svc, w, c).Accepted?
  }

  /** What each way of failing means. The gates do not look at the TLD of a suggested rule. */
  predicate FailsFor(svc: Service, w: World, c: ParseCall, reason: Reason)
    requires svc.Valid()
  {
    match reason
    case NoRule => Known(svc, w.rows, c.raw, c.domain) == NoMatch && !svc.fallback
    case RateHost => FallsThrough(svc, w, c) && !HostGrants(svc, w, c)
    case RateTld => FallsThrough(svc, w, c) && HostGrants(svc, w, c) && !TldGrants(svc, w, c)
    case SuggestionFailed => Asks(svc, w, c) && c.suggestion.None?
    case ValidationTransient => Asks(svc, w, c) && c.suggestion.Some? && VerdictOf(svc, w, c).Transient?
    case ValidationRejected => Asks(svc, w, c) && c.suggestion.Some? && VerdictOf(svc, w, c).Rejected?
    case PostLearnFailure =>
      && Passed(svc, w, c) && !Duplicate(w.rows, c.suggestion.value)
      && c.suggestion.value.tld != Names.Tld(c.domain)
  }

  /** An accepted rule parses its text alone exactly when it is for the domain's TLD. */
  lemma AloneIff(svc: Service, w: World, c: ParseCall)
    requires svc.Valid() && Passed(svc, w, c)
    ensures Parse(svc.en, c.raw, Names.Tld(c.domain), [c.suggestion.value])
         == if c.suggestion.value.tld == Names.Tld(c.domain) then Date(VerdictOf(svc, w, c).date) else NoMatch
  {
    var rule, tld := c.suggestion.value, Names.Tld(c.domain);
    AcceptedDate(svc.settings, svc.en, w.cache, ValidationCall(rule, c.raw, c.domain, c.now4, c.now5), c.fetch);
    NoMatchIff(svc.en, c.raw, tld, [rule]);
    if rule.tld == tld {
      FirstDateWins(svc.en, c.raw, tld, [rule], 0);
    }
  }

  /** What a parse replies, in each of the cases. */
  predicate RightReply(svc: Service, w: World, c: ParseCall, reply: Reply)
    requires svc.Valid()
  {
    match reply
    case Parsed(at) =>
      || Known(svc, w.rows, c.raw, c.domain) == Date(at)
      || (Passed(svc, w, c) && c.suggestion.value.tld == Names.Tld(c.domain) && at == VerdictOf(svc, w, c).date)
    case RaisedConversion => Known(svc, w.rows, c.raw, c.domain) == ConversionFailed
    case RaisedNoRule => FailsFor(svc, w, c, NoRule)
    case RaisedSuggestion =>
      || FailsFor(svc, w, c, RateHost) || FailsFor(svc, w, c, RateTld)
      || FailsFor(svc, w, c, SuggestionFailed) || FailsFor(svc, w, c, ValidationTransient)
    case RaisedValidation(gate) => FailsFor(svc, w, c, ValidationRejected) && VerdictOf(svc, w, c) == Rejected(gate)
    case RaisedDuplicate => Passed(svc, w, c) && Duplicate(w.rows, c.suggestion.value)
    case RaisedPostLearn => FailsFor(svc, w, c, PostLearnFailure)
  }

  /** From the limiters on, the world differs in their histories only. */
  function Admitted(svc: Service, w: World, c: ParseCall): World {
    w.(hostCalls := HostCalls(svc, w, c), tldCalls := TldCalls(svc, w, c))
  }

  lemma AskedIsLearn(svc: Service, w: World, c: ParseCall)
    requires svc.Valid() && Asks(svc, w, c)
    ensures Step(svc, w, c) == Learn(svc, Admitted(svc, w, c), c)
    ensures c.suggestion.Some? ==> VerdictOf(svc, Admitted(svc, w, c), c) == VerdictOf(svc, w, c)
  {
  }

  /** Reply and log of a call that does not ask the suggester. */
  ghost predicate TellsUnasked(svc: Service, w: World, c: ParseCall, reply: Reply, log: seq<Event>)
    requires svc.Valid()
  {
    match Known(svc, w.rows, c.raw, c.domain)
    case Date(at) => reply == Parsed(at) && log == w.log
    case ConversionFailed => reply == RaisedConversion && log == w.log
    case NoMatch =>
      if !svc.fallback then reply == RaisedNoRule && log == w.log + [ParseFailed(c.domain, NoRule, false)]
      else
        && reply == RaisedSuggestion
        && log == w.log + [ParseFailed(c.domain, if HostGrants(svc, w, c) then RateTld else RateHost, false)]
  }

  /** Of one that asks and is not helped. */
  ghost predicate TellsUnhelped(svc: Service, w: World, c: ParseCall, reply: Reply, log: seq<Event>) {
    if c.suggestion.None? then
      reply == RaisedSuggestion && log == w.log + [ParseFailed(c.domain, SuggestionFailed, true)]
    else
      match VerdictOf(svc, w, c)
      case Transient => reply == RaisedSuggestion && log == w.log + [ParseFailed(c.domain, ValidationTransient, true)]
      case Rejected(gate) =>
        reply == RaisedValidation(gate) && log == w.log + [ParseFailed(c.domain, ValidationRejected, true)]
      case Accepted(_) => false
  }

  /** Of one whose suggestion passes. A duplicate can only be a rule for another TLD. */
  ghost predicate TellsPassed(svc: Service, w: World, c: ParseCall, reply: Reply, log: seq<Event>)
    requires c.suggestion.Some? && VerdictOf(svc, w, c).Accepted?
  {
    var rule := c.suggestion.value;
    var learned := w.log + [RuleLearned(|w.rows| + 1, rule.tld, c.domain)];
    if rule.tld == Names.Tld(c.domain) then
      reply == Parsed(VerdictOf(svc, w, c).date) && log == learned && !Duplicate(w.rows, rule)
    else if Duplicate(w.rows, rule) then reply == RaisedDuplicate && log == w.log
    else reply == RaisedPostLearn && log == learned + [ParseFailed(c.domain, PostLearnFailure, true)]
  }

  ghost predicate Tells(svc: Service, w: World, c: ParseCall, reply: Reply, log: seq<Event>)
    requires svc.Valid()
  {
    if !Asks(svc, w, c) then TellsUnasked(svc, w, c, reply, log)
    else if !Passed(svc, w, c) then TellsUnhelped(svc, w, c, reply, log)
    else TellsPassed(svc, w, c, reply, log)
  }

  lemma Unasked(svc: Service, w: World, c: ParseCall)
    requires svc.Valid() && !Asks(svc, w, c)
    ensures TellsUnasked(svc, w, c, Step(svc, w, c).1, Step(svc, w, c).0.log)
  {
  }

  lemma Unhelped(svc: Service, w: World, c: ParseCall)
    requires svc.Valid() && Asks(svc, w, c) && !Passed(svc, w, c)
    ensures TellsUnhelped(svc, w, c, Step(svc, w, c).1, Step(svc, w, c).0.log)
  {
    AskedIsLearn(svc, w, c);
  }

  lemma Helped(svc: Service, w: World, c: ParseCall)
    requires svc.Valid() && Passed(svc, w, c)
    ensures TellsPassed(svc, w, c, Step(svc, w, c).1, Step(svc, w, c).0.log)
  {
    var rule := c.suggestion.value;
    AskedIsLearn(svc, w, c);
    AloneIff(svc, w, c);
    if rule.tld == Names.Tld(c.domain) {
      AcceptedDate(svc.settings, svc.en, w.cache, ValidationCall(rule, c.raw, c.domain, c.now4, c.now5), c.fetch);
      NoClash(svc, w, c, rule);
    }
  }

  /** Reply and events of a parse, case by case. */
  lemma StepTells(svc: Service, w: World, c: ParseCall)
    requires svc.Valid()
    ensures Tells(svc, w, c, Step(svc, w, c).1, Step(svc, w, c).0.log)
  {
    if !Asks(svc, w, c) {
      Unasked(svc, w, c);
    } else if !Passed(svc, w, c) {
      Unhelped(svc, w, c);
    } else {
      Helped(svc, w, c);
    }
  }

  lemma ReplyFits(svc: Service, w: World, c: ParseCall, reply: Reply, log: seq<Event>)
    requires svc.Valid() && Tells(svc, w, c, reply, log)
    ensures RightReply(svc, w, c, reply)
  {
  }

  lemma OneReply(svc: Service, w: World, c: ParseCall, a: Reply, log: seq<Event>, b: Reply)
    requires svc.Valid() && Tells(svc, w, c, a, log) && RightReply(svc, w, c, b)
    ensures a == b
  {
  }

  /** A parse has the reply that fits its case. The cases exclude each other, so a reply tells which one it was. */
  lemma RepliesIff(svc: Service, w: World, c: ParseCall, reply: Reply)
    requires svc.Valid()
    ensures Step(svc, w, c).1 == reply <==> RightReply(svc, w, c, reply)
  {
    var (w', actual) := Step(svc, w, c);
    StepTells(svc, w, c);
    ReplyFits(svc, w, c, actual, w'.log);
    if RightReply(svc, w, c, reply) {
      OneReply(svc, w, c, actual, w'.log, reply);
    }
  }

  /** The event of a learned rule, if one is learned. */
  function Learnings(svc: Service, w: World, c: ParseCall): seq<Event>
    requires svc.Valid()
  {
    if Passed(svc, w, c) && !Duplicate(w.rows, c.suggestion.value)
    then [RuleLearned(|w.rows| + 1, c.suggestion.value.tld, c.domain)] else []
  }

  /** The parse fails for one of the reasons that are announced. */
  predicate Fails(svc: Service, w: World, c: ParseCall)
    requires svc.Valid()
  {
    Known(svc, w.rows, c.raw, c.domain) == NoMatch && (Passed(svc, w, c) ==> FailsFor(svc, w, c, PostLearnFailure))
  }

  lemma LogFits(svc: Service, w: World, c: ParseCall, reply: Reply, log: seq<Event>, reason: Reason)
    requires svc.Valid() && Tells(svc, w, c, reply, log)
    ensures FailsFor(svc, w, c, reason) ==>
              Fails(svc, w, c)
              && log == w.log + Learnings(svc, w, c) + [ParseFailed(c.domain, reason, Asks(svc, w, c))]
    ensures !Fails(svc, w, c) ==> log == w.log + Learnings(svc, w, c)
  {
    assert w.log + [] == w.log;
  }

  /**
   A failure for one of the reasons is announced once, and says rightly whether the suggester was asked;
   otherwise only the learned rule is announced, if there is one.
   */
  lemma FailuresAreAnnounced(svc: Service, w: World, c: ParseCall, reason: Reason)
    requires svc.Valid()
    ensures FailsFor(svc, w, c, reason) ==>
              Fails(svc, w, c)
              && Step(svc, w, c).0.log
                 == w.log + Learnings(svc, w, c) + [ParseFailed(c.domain, reason, Asks(svc, w, c))]
    ensures !Fails(svc, w, c) ==> Step(svc, w, c).0.log == w.log + Learnings(svc, w, c)
  {
    StepTells(svc, w, c);
    LogFits(svc, w, c, Step(svc, w, c).1, Step(svc, w, c).0.log, reason);
  }

  // ------------------------------------------------------------- learned for good

  /** Later rows: old rows keep their place and their rule, and are never enabled again. */
  ghost predicate Extends(before: Rows, after: Rows) {
    && |before| <= |after|
    && forall k :: 0 <= k < |before| ==> after[k].rule == before[k].rule && (before[k].disabled ==> after[k].disabled)
  }

  /**
   Learn once: after a text went through the fallback, every later parse of it by the same domain gives
   the same date without suggester, tokens or events, as long as the learned row is enabled, whatever
   else was learned, disabled or revalidated in between.
   */
  lemma LearnedOnceForGood(svc: Service, w: World, c: ParseCall, later: World, again: ParseCall)
    requires svc.Valid() && Asks(svc, w, c) && Step(svc, w, c).1.Parsed?
    requires Extends(Step(svc, w, c).0.rows, later.rows)
    requires StillEnabled(later.rows, |w.rows|)
    requires again.raw == c.raw && again.domain == c.domain
    ensures Step(svc, later, again) == (later, Step(svc, w, c).1)
    ensures !FallsThrough(svc, later, again)
  {
    ParsedMeansLearned(svc, w, c);
    assert Step(svc, w, c).0.rows[|w.rows|].rule == c.suggestion.value;
    assert Extends(w.rows, later.rows) by {
      assert forall k :: 0 <= k < |w.rows| ==> Step(svc, w, c).0.rows[k] == w.rows[k];
    }
    KnownFromNowOn(svc, w.rows, c.suggestion.value, later.rows, c.raw, c.domain);
  }

  /** The row right after those that did not match decides, wherever it is enabled. */
  lemma KnownFromNowOn(svc: Service, before: Rows, rule: ParseRule, later: Rows, raw: string, domain: string)
    requires Known(svc, before, raw, domain) == NoMatch && Extends(before, later)
    requires |before| < |later| && later[|before|].rule == rule && !later[|before|].disabled
    requires Applies(svc.en, raw, Names.Tld(domain), rule) && DateOf(svc.en, raw, rule).Some?
    ensures Known(svc, later, raw, domain) == Date(DateOf(svc.en, raw, rule).value)
  {
    var tld, n := Names.Tld(domain), |before|;
    var head := ForTld(later[..n], tld);
    NothingBefore(svc, before, later, raw, tld);
    ForTldAround(later, tld, n);
    NoMatchIff(svc.en, raw, tld, head);
    FirstDateWins(svc.en, raw, tld, ForTld(later, tld), |head|);
  }

  /** Rows from before the learning still do not match the text. */
  lemma NothingBefore(svc: Service, before: Rows, later: Rows, raw: string, tld: string)
    requires Extends(before, later)
    requires Parse(svc.en, raw, tld, ForTld(before, tld)) == NoMatch
    ensures Parse(svc.en, raw, tld, ForTld(later[..|before|], tld)) == NoMatch
  {
    var was, still := ForTld(before, tld), ForTld(later[..|before|], tld);
    NoMatchIff(svc.en, raw, tld, was);
    NoMatchIff(svc.en, raw, tld, still);
    forall j | 0 <= j < |still|
      ensures !Applies(svc.en, raw, tld, still[j])
    {
      ForTldIff(later[..|before|], tld, still[j]);
      var k :| 0 <= k < |before| && !later[..|before|][k].disabled && later[..|before|][k].rule == still[j]
          && still[j].tld == tld;
      assert before[k].rule == still[j] && !before[k].disabled;
      ForTldIff(before, tld, still[j]);
      var i :| 0 <= i < |was| && was[i] == still[j];
    }
  }

  // ------------------------------------------------------------------ objects

  class ParsingService {
    const svc: Service
    const repo: MemoryLearnedRulesRepo
    const pipeline: Pipeline
    const hostLimiter: TokenBucket.TokenBucketLimiter
    const tldLimiter: TokenBucket.TokenBucketLimiter
    const publisher: EventLog<Event>

    constructor (svc: Service, repo: MemoryLearnedRulesRepo, pipeline: Pipeline,
                 hostLimiter: TokenBucket.TokenBucketLimiter, tldLimiter: TokenBucket.TokenBucketLimiter,
                 publisher: EventLog<Event>)
      ensures this.svc == svc && this.repo == repo && this.pipeline == pipeline
      ensures this.hostLimiter == hostLimiter && this.tldLimiter == tldLimiter && this.publisher == publisher
    {
      this.svc := svc;
      this.repo := repo;
      this.pipeline := pipeline;
      this.hostLimiter := hostLimiter;
      this.tldLimiter := tldLimiter;
      this.publisher := publisher;
    }

    /** The collaborators are wired as `svc` says; a limiter that `svc` leaves out is never asked. */
    ghost predicate Valid()
      reads repo, hostLimiter, tldLimiter, pipeline
    {
      && svc.Valid() && repo.Valid()
      && pipeline.settings == svc.settings && pipeline.en == svc.en
      && hostLimiter != tldLimiter && hostLimiter.Valid() && tldLimiter.Valid()
      && (svc.hostLimits.Some? ==> hostLimiter.limits == svc.hostLimits.value)
      && (svc.tldLimits.Some? ==> tldLimiter.limits == svc.tldLimits.value)
    }

    ghost function State(): World
      reads repo, hostLimiter, tldLimiter, pipeline, publisher
    {
      World(repo.rows, hostLimiter.calls, tldLimiter.calls, pipeline.cache, publisher.events)
    }

    method StaticRules(tld: string) returns (rules: seq<ParseRule>)
      ensures rules == ForTldStatic(svc.staticRules, tld)
    {
      rules := [];
      for k := 0 to |svc.staticRules|
        invariant rules == ForTldStatic(svc.staticRules[..k], tld)
      {
        assert svc.staticRules[..k + 1][..k] == svc.staticRules[..k];
        if svc.staticRules[k].tld == tld {
          rules := rules + [svc.staticRules[k]];
        }
      }
      assert svc.staticRules[..|svc.staticRules|] == svc.staticRules;
    }

    /** The steps that need no suggester. */
    method ParseKnown(raw: string, domain: string) returns (r: Outcome)
      requires Valid()
      ensures r == Known(svc, repo.rows, raw, domain)
    {
      var tld := Names.Tld(domain);
      var fixed := StaticRules(tld);
      if fixed != [] {
        r := ParseWithRules(svc.en, raw, tld, fixed);
        if r != NoMatch {
          return;
        }
      }
      var learned := repo.RulesForTld(tld);
      r := NoMatch;
      if learned != [] {
        r := ParseWithRules(svc.en, raw, tld, learned);
      }
    }

    method ParseText(c: ParseCall) returns (reply: Reply)
      requires Valid()
      modifies repo, hostLimiter, tldLimiter, pipeline, publisher
      ensures Valid()
      ensures (State(), reply) == Step(svc, old(State()), c)
    {
      var known := ParseKnown(c.raw, c.domain);
      match known {
        case Date(at) => return Parsed(at);
        case ConversionFailed => return RaisedConversion;
        case NoMatch =>
          reply := ParseByFallback(c);
      }
    }

    /** Ask the limiters that are wired. */
    method PassLimiters(c: ParseCall) returns (refusal: Option<Reason>)
      requires Valid()
      modifies hostLimiter, tldLimiter
      ensures Valid()
      ensures (State(), refusal) == Limited(svc, old(State()), c)
    {
      if svc.hostLimits.Some? {
        var granted := hostLimiter.Acquire(svc.host, c.hostNow);
        if !granted {
          return Some(RateHost);
        }
      }
      if svc.tldLimits.Some? {
        var granted := tldLimiter.Acquire(Names.Tld(c.domain), c.tldNow);
        if !granted {
          return Some(RateTld);
        }
      }
      return None;
    }

    method ParseByFallback(c: ParseCall) returns (reply: Reply)
      requires Valid()
      modifies repo, hostLimiter, tldLimiter, pipeline, publisher
      ensures Valid()
      ensures (State(), reply) == FallBack(svc, old(State()), c)
    {
      if !svc.fallback {
        publisher.Publish(ParseFailed(c.domain, NoRule, false));
        return RaisedNoRule;
      }
      var refusal := PassLimiters(c);
      if refusal.Some? {
        publisher.Publish(ParseFailed(c.domain, refusal.value, false));
        return RaisedSuggestion;
      }
      reply := LearnFrom(c);
    }

    method LearnFrom(c: ParseCall) returns (reply: Reply)
      requires Valid()
      modifies repo, pipeline, publisher
      ensures Valid()
      ensures (State(), reply) == Learn(svc, old(State()), c)
    {
      if c.suggestion.None? {
        publisher.Publish(ParseFailed(c.domain, SuggestionFailed, true));
        return RaisedSuggestion;
      }
      var rule := c.suggestion.value;
      var verdict := pipeline.Validate(ValidationCall(rule, c.raw, c.domain, c.now4, c.now5), c.fetch);
      match verdict {
        case Transient =>
          publisher.Publish(ParseFailed(c.domain, ValidationTransient, true));
          return RaisedSuggestion;
        case Rejected(g) =>
          publisher.Publish(ParseFailed(c.domain, ValidationRejected, true));
          return RaisedValidation(g);
        case Accepted(_) =>
      }
      reply := PersistAndParse(c, rule);
    }

    /** Store the rule, announce it, and parse with it alone. */
    method PersistAndParse(c: ParseCall, rule: ParseRule) returns (reply: Reply)
      requires Valid()
      modifies repo, publisher
      ensures Valid()
      ensures (State(), reply) == Persist(svc, old(State()), c, rule)
    {
      var id := repo.Add(rule, c.raw, c.domain, svc.suggesterId, svc.pipelineVersion);
      if id.None? {
        return RaisedDuplicate;
      }
      publisher.Publish(RuleLearned(id.value, rule.tld, c.domain));
      var reparsed := ParseWithRules(svc.en, c.raw, Names.Tld(c.domain), [rule]);
      match reparsed {
        case Date(at) => return Parsed(at);
        case _ =>
          publisher.Publish(ParseFailed(c.domain, PostLearnFailure, true));
          return RaisedPostLearn;
      }
    }
  }
}
