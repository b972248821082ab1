/**
 The six gates every suggested rule passes, with the cache of known-good texts that gate 5 keeps. The
 module proves that the cache is never noticed, as long as known-good texts are stable.
 */
module ValidationPipeline {
  import opened Common
  import opened Text
  import opened Whois

  /** How a fetch of a known-good text ends. Blank text counts as a transient failure. */
  datatype Fetch = Body(text: string) | FetchTransient | FetchPermanent

  datatype CacheKey = CacheKey(tld: string, domain: string)

  datatype Cached = Cached(at: Instant, text: string)

  type Cache = map<CacheKey, Cached>

  /** `ttl` in seconds, `knownGood` the candidate domains by TLD. */
  datatype Settings = Settings(maxAgeYears: int, ttl: int, knownGood: map<string, seq<string>>)

  datatype Verdict = Accepted(date: Instant) | Rejected(gate: nat) | Transient

  const DATETIME_MAX: Instant := 253402300799.999999
  const DATETIME_MIN: Instant := -62135596800.0

  /** 1970-01-01, 1900-01-01, 2000-01-01 and 9999-12-31. */
  predicate IsSentinel(date: Instant) {
    date == 0.0 || date == -2208988800.0 || date == 946684800.0 || date == 253402214400.0
  }

  function MaxFuture(now: Instant, years: int): Instant {
    var limit := now + 31536000.0 * years as real;
    if DATETIME_MIN <= limit <= DATETIME_MAX then limit else DATETIME_MAX
  }

  // -------------------------------------------------------------------- gates

  /** Gates 1 to 4: the date that the rule reads from its own text, or the gate that rejects. */
  function EarlyGates(st: Settings, en: Engine, rule: ParseRule, raw: string, now: Instant): Result<Instant, nat> {
    if en.groups(rule.regex) != 1 then Err(1)
    else if en.search(rule.regex, raw).None? then Err(2)
    else if DateOf(en, raw, rule).None? then Err(3)
    else
      var date := DateOf(en, raw, rule).value;
      if date <= now || date > MaxFuture(now, st.maxAgeYears) || IsRegistration(en, rule, raw, date) then Err(4)
      else Ok(date)
  }

  /** Some registration line of the text reads as the same date. */
  predicate IsRegistration(en: Engine, rule: ParseRule, raw: string, date: Instant) {
    exists k :: 0 <= k < |en.registered(raw)| && en.convert(en.registered(raw)[k], rule) == Some(date)
  }

  /** The first known-good domain of the TLD that is not the domain itself. */
  function FirstOther(candidates: seq<string>, domain: string): (d: Option<string>)
    ensures d.Some? ==> d.value != domain && d.value in candidates
    ensures d.None? ==> forall c :: c in candidates ==> c == domain
  {
    if candidates == [] then None
    else if candidates[0] != domain then Some(candidates[0])
    else
      assert forall c :: c in candidates ==> c == candidates[0] || c in candidates[1..];
      FirstOther(candidates[1..], domain)
  }

  /** Up to position `n` there is only the domain itself. */
  predicate OthersBegin(candidates: seq<string>, domain: string, n: nat) {
    n < |candidates| && candidates[n] != domain && forall k :: 0 <= k < n ==> candidates[k] == domain
  }

  lemma {:induction false} FirstOtherIs(candidates: seq<string>, domain: string, n: nat)
    requires OthersBegin(candidates, domain, n)
    ensures FirstOther(candidates, domain) == Some(candidates[n])
  {
    if n > 0 {
      assert candidates[0] == domain;
      assert forall k :: 0 <= k < n ==> candidates[1..][k] == candidates[k + 1];
      FirstOtherIs(candidates[1..], domain, n - 1);
    }
  }

  function KnownGood(st: Settings, tld: string, domain: string): Option<string> {
    if tld in st.knownGood then FirstOther(st.knownGood[tld], domain) else None
  }

  predicate IsFresh(st: Settings, cache: Cache, key: CacheKey, now: Instant) {
    key in cache && now - cache[key].at < st.ttl as real
  }

  predicate Usable(f: Fetch) { f.Body? && Strip(f.text) != [] }

  /** How gate 5 ends: the rule matches the known-good text or there is none, it does not, or no text came. */
  datatype CrossCheck = Passes | Fails | NoAnswer

  function Compare(en: Engine, rule: ParseRule, text: string): CrossCheck {
    if en.search(rule.regex, text).None? then Fails else Passes
  }

  /** What gate 5 concludes from the server's answer. */
  function Judge(en: Engine, rule: ParseRule, answer: Fetch): CrossCheck {
    match answer
    case FetchTransient => NoAnswer
    case FetchPermanent => Passes
    case Body(text) => if Strip(text) == [] then NoAnswer else Compare(en, rule, text)
  }

  function Gate6(date: Instant): Verdict {
    if IsSentinel(date) then Rejected(6) else Accepted(date)
  }

  /** One validation, and the moments at which gates 4 and 5 read the clock. */
  datatype Call = Call(rule: ParseRule, raw: string, tld: string, domain: string, now4: Instant, now5: Instant)

  /** The known-good domain that this call cross-checks against, if it gets that far. */
  function CrossChecks(st: Settings, en: Engine, c: Call): Option<CacheKey> {
    var kg := KnownGood(st, c.tld, c.domain);
    if EarlyGates(st, en, c.rule, c.raw, c.now4).Ok? && kg.Some? then Some(CacheKey(c.tld, kg.value)) else None
  }

  /** The known-good text is fetched, not taken from the cache. */
  predicate Fetches(st: Settings, en: Engine, cache: Cache, c: Call) {
    var key := CrossChecks(st, en, c);
    key.Some? && !IsFresh(st, cache, key.value, c.now5)
  }

  function CrossChecked(st: Settings, en: Engine, cache: Cache, c: Call, fetch: string -> Fetch): CrossCheck {
    var key := CrossChecks(st, en, c);
    if key.None? then Passes
    else if IsFresh(st, cache, key.value, c.now5) then Compare(en, c.rule, cache[key.value].text)
    else Judge(en, c.rule, fetch(key.value.domain))
  }

  function Validated(st: Settings, en: Engine, cache: Cache, c: Call, fetch: string -> Fetch): Verdict {
    var early := EarlyGates(st, en, c.rule, c.raw, c.now4);
    if early.Err? then Rejected(early.error)
    else
      match CrossChecked(st, en, cache, c, fetch)
      case NoAnswer => Transient
      case Fails => Rejected(5)
      case Passes => Gate6(early.value)
  }

  function CacheAfter(st: Settings, en: Engine, cache: Cache, c: Call, fetch: string -> Fetch): Cache {
    if Fetches(st, en, cache, c) && Usable(fetch(CrossChecks(st, en, c).value.domain))
    then
      var key := CrossChecks(st, en, c).value;
      cache[key := Cached(c.now5, fetch(key.domain).text)]
    else cache
  }

  /** The call stores a freshly fetched text under this key. */
  predicate Stores(st: Settings, en: Engine, cache: Cache, c: Call, fetch: string -> Fetch, key: CacheKey) {
    Fetches(st, en, cache, c) && CrossChecks(st, en, c) == Some(key) && Usable(fetch(key.domain))
  }

  /** An entry of the cache was there before, or the call has stored it. */
  lemma EntryAfter(st: Settings, en: Engine, cache: Cache, c: Call, fetch: string -> Fetch, key: CacheKey)
    requires key in CacheAfter(st, en, cache, c, fetch)
    ensures var entry := CacheAfter(st, en, cache, c, fetch)[key];
            if Stores(st, en, cache, c, fetch, key) then entry == Cached(c.now5, fetch(key.domain).text)
            else key in cache && entry == cache[key]
  {
  }

  /**
   What an accepted rule is worth: it reads from its text a date in the future, within the age limit,
   that is neither a registration date nor a sentinel.
   */
  lemma AcceptedDate(st: Settings, en: Engine, cache: Cache, c: Call, fetch: string -> Fetch)
    requires Validated(st, en, cache, c, fetch).Accepted?
    ensures var date := Validated(st, en, cache, c, fetch).date;
            && en.search(c.rule.regex, c.raw).Some? && DateOf(en, c.raw, c.rule) == Some(date)
            && c.now4 < date <= MaxFuture(c.now4, st.maxAgeYears)
            && !IsRegistration(en, c.rule, c.raw, date)
            && !IsSentinel(date)
    ensures st.maxAgeYears >= 0 && c.now4 >= DATETIME_MIN ==>
              Validated(st, en, cache, c, fetch).date <= c.now4 + 31536000.0 * st.maxAgeYears as real
  {
    assert st.maxAgeYears >= 0 ==> 31536000.0 * st.maxAgeYears as real >= 0.0;
  }

  // --------------------------------------------------- the verdict, gate by gate

  /** What gate 5 has to go by: a text, no need for one, or no answer when one is needed. */
  datatype Evidence = Sample(text: string) | NotNeeded | Missing

  /** An entry that is younger than the lifetime is used; else the server is asked. */
  function EvidenceOf(st: Settings, cache: Cache, c: Call, fetch: string -> Fetch): Evidence {
    var sample := KnownGood(st, c.tld, c.domain);
    if sample.None? then NotNeeded
    else
      var key := CacheKey(c.tld, sample.value);
      if key in cache && c.now5 < cache[key].at + st.ttl as real then Sample(cache[key].text)
      else
        match fetch(sample.value)
        case Body(text) => if Strip(text) == "" then Missing else Sample(text)
        case FetchPermanent => NotNeeded
        case FetchTransient => Missing
  }

  /** Midnight of January 1 of a year, counted from 1970 in the Gregorian calendar. */
  function Jan1(year: nat): Instant
    requires year >= 1
  {
    (86400 * (365 * (year - 1970) + LeapYearsBefore(year) - LeapYearsBefore(1970))) as real
  }

  function LeapYearsBefore(year: nat): nat
    requires year >= 1
  {
    (year - 1) / 4 - (year - 1) / 100 + (year - 1) / 400
  }

  /** So many years of 365 days ahead at most, or up to the end of the calendar when that is out of it. */
  predicate NotTooLate(date: Instant, now: Instant, years: int) {
    var limit, last := now + years as real * 365.0 * 86400.0, Jan1(10000) - 0.000001;
    date <= if Jan1(1) <= limit <= last then limit else last
  }

  /** Midnight of a date that models make up. */
  predicate MadeUp(date: Instant) {
    date in {Jan1(1970), Jan1(1900), Jan1(2000), Jan1(10000) - 86400.0}
  }

  /** The rule reads this date from the text it was suggested for. */
  predicate ReadsDate(en: Engine, c: Call, date: Instant) {
    Reads(en, c.raw, c.rule.tld, c.rule, date)
  }

  ghost predicate Plausible(st: Settings, en: Engine, c: Call, date: Instant) {
    && c.now4 < date && NotTooLate(date, c.now4, st.maxAgeYears)
    && forall line :: line in en.registered(c.raw) ==> en.convert(line, c.rule) != Some(date)
  }

  /** What each gate asks for, taken by itself. */
  ghost predicate Holds(st: Settings, en: Engine, cache: Cache, c: Call, fetch: string -> Fetch, gate: nat) {
    match gate
    case 1 => en.groups(c.rule.regex) == 1
    case 2 => en.search(c.rule.regex, c.raw).Some?
    case 3 => exists date :: ReadsDate(en, c, date)
    case 4 => forall date :: ReadsDate(en, c, date) ==> Plausible(st, en, c, date)
    case 5 =>
      var evidence := EvidenceOf(st, cache, c, fetch);
      evidence.NotNeeded? || (evidence.Sample? && en.search(c.rule.regex, evidence.text).Some?)
    case 6 => forall date :: ReadsDate(en, c, date) ==> !MadeUp(date)
    case _ => true
  }

  ghost predicate HoldBefore(st: Settings, en: Engine, cache: Cache, c: Call, fetch: string -> Fetch, gate: nat) {
    forall g :: 1 <= g < gate ==> Holds(st, en, cache, c, fetch, g)
  }

  /** Gate 5 without an answer fails nobody. */
  ghost predicate FirstToFail(st: Settings, en: Engine, cache: Cache, c: Call, fetch: string -> Fetch, gate: nat) {
    && 1 <= gate <= 6 && HoldBefore(st, en, cache, c, fetch, gate) && !Holds(st, en, cache, c, fetch, gate)
    && (gate == 5 ==> !EvidenceOf(st, cache, c, fetch).Missing?)
  }

  lemma CalendarIs(date: Instant, now: Instant, years: int)
    ensures IsSentinel(date) <==> MadeUp(date)
    ensures date <= MaxFuture(now, years) <==> NotTooLate(date, now, years)
  {
    CalendarBounds();
    var y := years as real;
    assert y * 365.0 * 86400.0 == 31536000.0 * y;
  }

  /** The constants of the code, as dates. */
  lemma CalendarBounds()
    ensures Jan1(1970) == 0.0 && Jan1(1900) == -2208988800.0 && Jan1(2000) == 946684800.0
    ensures Jan1(1) == DATETIME_MIN && Jan1(10000) - 86400.0 == 253402214400.0
    ensures Jan1(10000) - 0.000001 == DATETIME_MAX
  {
  }

  lemma PlausibleIff(st: Settings, en: Engine, c: Call, date: Instant)
    ensures Plausible(st, en, c, date) <==>
            !(date <= c.now4 || date > MaxFuture(c.now4, st.maxAgeYears) || IsRegistration(en, c.rule, c.raw, date))
  {
    CalendarIs(date, c.now4, st.maxAgeYears);
    var lines := en.registered(c.raw);
    if IsRegistration(en, c.rule, c.raw, date) {
      var k :| 0 <= k < |lines| && en.convert(lines[k], c.rule) == Some(date);
      assert lines[k] in lines;
    }
  }

  /** Gates 1 to 4 reject at the first one that does not hold. */
  lemma EarlyGatesIff(st: Settings, en: Engine, cache: Cache, c: Call, fetch: string -> Fetch)
    ensures match EarlyGates(st, en, c.rule, c.raw, c.now4)
            case Ok(date) => ReadsDate(en, c, date) && HoldBefore(st, en, cache, c, fetch, 5)
            case Err(gate) => gate < 5 && FirstToFail(st, en, cache, c, fetch, gate)
  {
    if en.search(c.rule.regex, c.raw).Some? {
      var read := DateOf(en, c.raw, c.rule);
      forall date
        ensures ReadsDate(en, c, date) <==> read == Some(date)
      {
      }
      if read.Some? {
        PlausibleIff(st, en, c, read.value);
      }
    }
  }

  /** What gate 5 makes of a text, or of the lack of one. */
  function Concluded(en: Engine, rule: ParseRule, evidence: Evidence): CrossCheck {
    match evidence
    case NotNeeded => Passes
    case Missing => NoAnswer
    case Sample(text) => if en.search(rule.regex, text).Some? then Passes else Fails
  }

  lemma EvidenceDecides(st: Settings, en: Engine, cache: Cache, c: Call, fetch: string -> Fetch)
    requires EarlyGates(st, en, c.rule, c.raw, c.now4).Ok?
    ensures CrossChecked(st, en, cache, c, fetch) == Concluded(en, c.rule, EvidenceOf(st, cache, c, fetch))
  {
    var sample := KnownGood(st, c.tld, c.domain);
    if sample.Some? {
      var key := CacheKey(c.tld, sample.value);
      assert IsFresh(st, cache, key, c.now5) <==> key in cache && c.now5 < cache[key].at + st.ttl as real;
    }
  }

  /** What the verdict says of the gates. */
  ghost predicate Explains(st: Settings, en: Engine, cache: Cache, c: Call, fetch: string -> Fetch, verdict: Verdict) {
    match verdict
    case Accepted(date) => ReadsDate(en, c, date) && HoldBefore(st, en, cache, c, fetch, 7)
    case Rejected(gate) => FirstToFail(st, en, cache, c, fetch, gate)
    case Transient => HoldBefore(st, en, cache, c, fetch, 5) && EvidenceOf(st, cache, c, fetch).Missing?
  }

  /** A verdict can be explained in one way only. */
  lemma OneExplanation(st: Settings, en: Engine, cache: Cache, c: Call, fetch: string -> Fetch, a: Verdict, b: Verdict)
    requires Explains(st, en, cache, c, fetch, a) && Explains(st, en, cache, c, fetch, b)
    ensures a == b
  {
    var missing := EvidenceOf(st, cache, c, fetch).Missing?;
    assert missing ==> !Holds(st, en, cache, c, fetch, 5);
    assert a.Rejected? ==> !Holds(st, en, cache, c, fetch, a.gate);
    assert b.Rejected? ==> !Holds(st, en, cache, c, fetch, b.gate);
  }

  lemma SixthGate(st: Settings, en: Engine, cache: Cache, c: Call, fetch: string -> Fetch, date: Instant)
    requires ReadsDate(en, c, date)
    ensures Holds(st, en, cache, c, fetch, 6) <==> !IsSentinel(date)
  {
    CalendarIs(date, c.now4, st.maxAgeYears);
  }

  lemma VerdictIsExplained(st: Settings, en: Engine, cache: Cache, c: Call, fetch: string -> Fetch)
    ensures Explains(st, en, cache, c, fetch, Validated(st, en, cache, c, fetch))
  {
    var early := EarlyGates(st, en, c.rule, c.raw, c.now4);
    EarlyGatesIff(st, en, cache, c, fetch);
    if early.Ok? {
      EvidenceDecides(st, en, cache, c, fetch);
      SixthGate(st, en, cache, c, fetch, early.value);
    }
  }

  /**
   The verdict is what the six gates, each taken by itself, make of the rule: it is accepted with the date
   it reads if and only if all hold, rejected by the first one that does not hold, and left open if and only
   if the first four hold and the known-good server has no answer.
   */
  lemma VerdictIff(st: Settings, en: Engine, cache: Cache, c: Call, fetch: string -> Fetch, verdict: Verdict)
    ensures Validated(st, en, cache, c, fetch) == verdict <==> Explains(st, en, cache, c, fetch, verdict)
  {
    VerdictIsExplained(st, en, cache, c, fetch);
    if Explains(st, en, cache, c, fetch, verdict) {
      OneExplanation(st, en, cache, c, fetch, Validated(st, en, cache, c, fetch), verdict);
    }
  }

  // ---------------------------------------------------------- the cache, over runs

  /** What each domain's WHOIS server answers at each moment. */
  type Servers = (Instant, string) -> Fetch

  function AtMoment(servers: Servers, now: Instant): string -> Fetch { d => servers(now, d) }

  ghost predicate InOrder(calls: seq<Call>) {
    forall i, j :: 0 <= i < j < |calls| ==> calls[i].now5 <= calls[j].now5
  }

  function CacheOver(st: Settings, en: Engine, servers: Servers, calls: seq<Call>): Cache {
    if calls == [] then map[]
    else
      var c := calls[|calls| - 1];
      CacheAfter(st, en, CacheOver(st, en, servers, calls[..|calls| - 1]), c, AtMoment(servers, c.now5))
  }

  /** The entry is what the server answered when it was fetched, no later than `end`, and not blank. */
  ghost predicate Honest(servers: Servers, key: CacheKey, entry: Cached, end: Instant) {
    servers(entry.at, key.domain) == Body(entry.text) && Strip(entry.text) != [] && entry.at <= end
  }

  ghost predicate AllHonest(servers: Servers, cache: Cache, end: Instant) {
    forall key :: key in cache ==> Honest(servers, key, cache[key], end)
  }

  lemma OneCallIsHonest(st: Settings, en: Engine, servers: Servers, cache: Cache, c: Call, end: Instant)
    requires end <= c.now5
    requires AllHonest(servers, cache, end)
    ensures AllHonest(servers, CacheAfter(st, en, cache, c, AtMoment(servers, c.now5)), c.now5)
  {
    var after := CacheAfter(st, en, cache, c, AtMoment(servers, c.now5));
    forall key | key in after
      ensures Honest(servers, key, after[key], c.now5)
    {
      EntryAfter(st, en, cache, c, AtMoment(servers, c.now5), key);
    }
  }

  /** Failed and blank fetches never enter the cache. */
  lemma {:induction false} CacheIsHonest(st: Settings, en: Engine, servers: Servers, calls: seq<Call>, end: Instant)
    requires InOrder(calls) && (calls != [] ==> calls[|calls| - 1].now5 <= end)
    ensures AllHonest(servers, CacheOver(st, en, servers, calls), end)
  {
    if calls != [] {
      var last := |calls| - 1;
      assert last > 0 ==> calls[..last][last - 1].now5 <= calls[last].now5;
      CacheIsHonest(st, en, servers, calls[..last], calls[last].now5);
      OneCallIsHonest(st, en, servers, CacheOver(st, en, servers, calls[..last]), calls[last], calls[last].now5);
    }
  }

  /** Call `k` of the run stores a text under this key. */
  predicate StoresAt(st: Settings, en: Engine, servers: Servers, calls: seq<Call>, k: nat, key: CacheKey)
    requires k < |calls|
  {
    Stores(st, en, CacheOver(st, en, servers, calls[..k]), calls[k], AtMoment(servers, calls[k].now5), key)
  }

  /** From its fetch on, the server keeps answering with this text for as long as the cache keeps it. */
  ghost predicate Lasts(st: Settings, servers: Servers, key: CacheKey, entry: Cached) {
    forall t :: entry.at <= t < entry.at + st.ttl as real ==> servers(t, key.domain) == Body(entry.text)
  }

  /** Every text that the run stores lasts. Nothing is assumed of other texts, or of later moments. */
  ghost predicate StoredTextsLast(st: Settings, en: Engine, servers: Servers, calls: seq<Call>) {
    forall k: nat, key :: k < |calls| && StoresAt(st, en, servers, calls, k, key)
        ==> StoredTextLasts(st, servers, calls[k], key)
  }

  ghost predicate StoredTextLasts(st: Settings, servers: Servers, c: Call, key: CacheKey) {
    servers(c.now5, key.domain).Body? && Lasts(st, servers, key, Cached(c.now5, servers(c.now5, key.domain).text))
  }

  lemma StoredPrefixLasts(st: Settings, en: Engine, servers: Servers, calls: seq<Call>, n: nat)
    requires n <= |calls| && StoredTextsLast(st, en, servers, calls)
    ensures StoredTextsLast(st, en, servers, calls[..n])
  {
    forall k: nat, key | k < n && StoresAt(st, en, servers, calls[..n], k, key)
      ensures StoredTextLasts(st, servers, calls[..n][k], key)
    {
      assert calls[..n][..k] == calls[..k];
      assert StoresAt(st, en, servers, calls, k, key);
    }
  }

  /** Under that assumption every entry of the cache lasts. */
  lemma {:induction false} CacheLasts(st: Settings, en: Engine, servers: Servers, calls: seq<Call>)
    requires StoredTextsLast(st, en, servers, calls)
    ensures AllLast(st, servers, CacheOver(st, en, servers, calls))
  {
    if calls != [] {
      var last := |calls| - 1;
      StoredPrefixLasts(st, en, servers, calls, last);
      CacheLasts(st, en, servers, calls[..last]);
      var cache := CacheOver(st, en, servers, calls);
      forall key | key in cache
        ensures Lasts(st, servers, key, cache[key])
      {
        EntryAfter(st, en, CacheOver(st, en, servers, calls[..last]), calls[last],
                   AtMoment(servers, calls[last].now5), key);
        if StoresAt(st, en, servers, calls, last, key) {
          assert StoredTextLasts(st, servers, calls[last], key);
        }
      }
    }
  }

  ghost predicate AllLast(st: Settings, servers: Servers, cache: Cache) {
    forall key :: key in cache ==> Lasts(st, servers, key, cache[key])
  }

  lemma FreshEntryIsCurrent(st: Settings, servers: Servers, cache: Cache, key: CacheKey, now: Instant)
    requires AllHonest(servers, cache, now) && AllLast(st, servers, cache) && IsFresh(st, cache, key, now)
    ensures servers(now, key.domain) == Body(cache[key].text) && Strip(cache[key].text) != []
  {
    assert Honest(servers, key, cache[key], now) && Lasts(st, servers, key, cache[key]);
  }

  /** An answer from the cache is as good as the same answer from the server. */
  lemma CachedAnswer(st: Settings, en: Engine, cache: Cache, c: Call, fetch: string -> Fetch, key: CacheKey)
    requires CrossChecks(st, en, c) == Some(key) && IsFresh(st, cache, key, c.now5)
    requires fetch(key.domain) == Body(cache[key].text) && Strip(cache[key].text) != []
    ensures CrossChecked(st, en, cache, c, fetch) == CrossChecked(st, en, map[], c, fetch)
  {
  }

  lemma FetchedAnswer(st: Settings, en: Engine, cache: Cache, c: Call, fetch: string -> Fetch)
    requires var key := CrossChecks(st, en, c); key.None? || !IsFresh(st, cache, key.value, c.now5)
    ensures CrossChecked(st, en, cache, c, fetch) == CrossChecked(st, en, map[], c, fetch)
  {
  }

  lemma CrossCheckTransparent(st: Settings, en: Engine, servers: Servers, cache: Cache, c: Call)
    requires AllHonest(servers, cache, c.now5) && AllLast(st, servers, cache)
    ensures CrossChecked(st, en, cache, c, AtMoment(servers, c.now5))
         == CrossChecked(st, en, map[], c, AtMoment(servers, c.now5))
  {
    var key := CrossChecks(st, en, c);
    if key.Some? && IsFresh(st, cache, key.value, c.now5) {
      FreshEntryIsCurrent(st, servers, cache, key.value, c.now5);
      CachedAnswer(st, en, cache, c, AtMoment(servers, c.now5), key.value);
    } else {
      FetchedAnswer(st, en, cache, c, AtMoment(servers, c.now5));
    }
  }

  lemma SameCrossCheckSameVerdict(st: Settings, en: Engine, a: Cache, b: Cache, c: Call, fetch: string -> Fetch)
    requires CrossChecked(st, en, a, c, fetch) == CrossChecked(st, en, b, c, fetch)
    ensures Validated(st, en, a, c, fetch) == Validated(st, en, b, c, fetch)
  {
  }

  lemma OneCallTransparent(st: Settings, en: Engine, servers: Servers, cache: Cache, c: Call)
    requires AllHonest(servers, cache, c.now5) && AllLast(st, servers, cache)
    ensures Validated(st, en, cache, c, AtMoment(servers, c.now5))
            == Validated(st, en, map[], c, AtMoment(servers, c.now5))
  {
    CrossCheckTransparent(st, en, servers, cache, c);
    SameCrossCheckSameVerdict(st, en, cache, map[], c, AtMoment(servers, c.now5));
  }

  /**
   The cache is transparent: in any run with an ordered clock, in which each stored text is what its server
   answers for the lifetime of its entry, every verdict is the one that a pipeline without a cache would give.
   */
  lemma CacheIsTransparent(st: Settings, en: Engine, servers: Servers, calls: seq<Call>, c: Call)
    requires InOrder(calls + [c]) && StoredTextsLast(st, en, servers, calls)
    ensures Validated(st, en, CacheOver(st, en, servers, calls), c, AtMoment(servers, c.now5))
         == Validated(st, en, map[], c, AtMoment(servers, c.now5))
  {
    OrderedPrefix(calls, c);
    CacheIsHonest(st, en, servers, calls, c.now5);
    CacheLasts(st, en, servers, calls);
    OneCallTransparent(st, en, servers, CacheOver(st, en, servers, calls), c);
  }

  lemma OrderedPrefix(calls: seq<Call>, c: Call)
    requires InOrder(calls + [c])
    ensures InOrder(calls) && (calls != [] ==> calls[|calls| - 1].now5 <= c.now5)
  {
    assert (calls + [c])[..|calls|] == calls && (calls + [c])[|calls|] == c;
    assert forall i :: 0 <= i < |calls| ==> calls[i] == (calls + [c])[i];
    assert calls != [] ==> (calls + [c])[|calls| - 1].now5 <= (calls + [c])[|calls|].now5;
  }

  ghost predicate CachedSince(cache: Cache, key: CacheKey, start: Instant) {
    key in cache && cache[key].at >= start
  }

  lemma OneCallKeepsEntry(st: Settings, en: Engine, servers: Servers, cache: Cache, c: Call, key: CacheKey,
      start: Instant)
    requires CachedSince(cache, key, start) && start <= c.now5
    ensures CachedSince(CacheAfter(st, en, cache, c, AtMoment(servers, c.now5)), key, start)
  {
  }

  lemma StoreHappens(st: Settings, en: Engine, servers: Servers, cache: Cache, c: Call, key: CacheKey)
    requires Stores(st, en, cache, c, AtMoment(servers, c.now5), key)
    ensures CachedSince(CacheAfter(st, en, cache, c, AtMoment(servers, c.now5)), key, c.now5)
  {
  }

  lemma CacheOneMore(st: Settings, en: Engine, servers: Servers, calls: seq<Call>, n: nat)
    requires n < |calls|
    ensures CacheOver(st, en, servers, calls[..n + 1])
         == CacheAfter(st, en, CacheOver(st, en, servers, calls[..n]), calls[n], AtMoment(servers, calls[n].now5))
  {
    assert calls[..n + 1][..n] == calls[..n];
  }

  lemma StoredNow(st: Settings, en: Engine, servers: Servers, calls: seq<Call>, k: nat, key: CacheKey)
    requires k < |calls| && StoresAt(st, en, servers, calls, k, key)
    ensures CachedSince(CacheOver(st, en, servers, calls[..k + 1]), key, calls[k].now5)
  {
    CacheOneMore(st, en, servers, calls, k);
    StoreHappens(st, en, servers, CacheOver(st, en, servers, calls[..k]), calls[k], key);
  }

  /** Once cached, the key stays cached, with an entry at least that young. */
  lemma {:induction false} StaysCached(st: Settings, en: Engine, servers: Servers, calls: seq<Call>, m: nat, n: nat,
                                       key: CacheKey, start: Instant)
    requires m <= n <= |calls| && forall i :: m <= i < n ==> start <= calls[i].now5
    requires CachedSince(CacheOver(st, en, servers, calls[..m]), key, start)
    ensures CachedSince(CacheOver(st, en, servers, calls[..n]), key, start)
    decreases n
  {
    if m < n {
      StaysCached(st, en, servers, calls, m, n - 1, key, start);
      CacheOneMore(st, en, servers, calls, n - 1);
      OneCallKeepsEntry(st, en, servers, CacheOver(st, en, servers, calls[..n - 1]), calls[n - 1], key, start);
    }
  }

  /** Successful fetches of one known-good domain are at least the cache's lifetime apart. */
  lemma FetchesAreSpaced(st: Settings, en: Engine, servers: Servers, calls: seq<Call>, i: nat, j: nat, key: CacheKey)
    requires InOrder(calls) && i < j < |calls|
    requires StoresAt(st, en, servers, calls, i, key) && StoresAt(st, en, servers, calls, j, key)
    ensures calls[j].now5 - calls[i].now5 >= st.ttl as real
  {
    StoredNow(st, en, servers, calls, i, key);
    StaysCached(st, en, servers, calls, i + 1, j, key, calls[i].now5);
  }

  /** The caches agree on every known-good domain but this one. */
  ghost predicate AgreeBut(domain: string, a: Cache, b: Cache) {
    forall key: CacheKey :: key.domain != domain ==> Lookup(a, key) == Lookup(b, key)
  }

  /**
   A domain is never its own witness: neither what its server would answer nor what the cache holds of it
   has any influence on the verdict on a rule suggested for it, nor on what the cache holds of others.
   */
  lemma OwnTextPlaysNoPart(st: Settings, en: Engine, c: Call, a: Cache, b: Cache, f: string -> Fetch,
      g: string -> Fetch)
    requires AgreeBut(c.domain, a, b) && forall d :: d != c.domain ==> f(d) == g(d)
    ensures Validated(st, en, a, c, f) == Validated(st, en, b, c, g)
    ensures AgreeBut(c.domain, CacheAfter(st, en, a, c, f), CacheAfter(st, en, b, c, g))
  {
    var key := CrossChecks(st, en, c);
    if key.Some? {
      assert key.value.domain != c.domain && Lookup(a, key.value) == Lookup(b, key.value);
      assert IsFresh(st, a, key.value, c.now5) <==> IsFresh(st, b, key.value, c.now5);
    }
  }

  // ------------------------------------------------------------------ objects

  class Pipeline {
    const settings: Settings
    const en: Engine
    var cache: Cache

    constructor (settings: Settings, en: Engine)
      ensures this.settings == settings && this.en == en && cache == map[]
    {
      this.settings := settings;
      this.en := en;
      cache := map[];
    }

    /** The loop over the registration lines of gate 4. */
    method ReadsRegistration(rule: ParseRule, raw: string, date: Instant) returns (yes: bool)
      ensures yes <==> IsRegistration(en, rule, raw, date)
    {
      var lines := en.registered(raw);
      for k := 0 to |lines|
        invariant forall j :: 0 <= j < k ==> en.convert(lines[j], rule) != Some(date)
      {
        if en.convert(lines[k], rule) == Some(date) {
          return true;
        }
      }
      return false;
    }

    /** The loop over the known-good candidates of gate 5. */
    method ChooseKnownGood(tld: string, domain: string) returns (chosen: Option<string>)
      ensures chosen == KnownGood(settings, tld, domain)
    {
      var candidates := if tld in settings.knownGood then settings.knownGood[tld] else [];
      for k := 0 to |candidates|
        invariant FirstOther(candidates, domain) == FirstOther(candidates[k..], domain)
      {
        assert candidates[k..][1..] == candidates[k + 1..];
        if candidates[k] != domain {
          return Some(candidates[k]);
        }
      }
      return None;
    }

    /** Gates 1 to 4. */
    method PassEarlyGates(c: Call) returns (r: Result<Instant, nat>)
      ensures r == EarlyGates(settings, en, c.rule, c.raw, c.now4)
    {
      if en.groups(c.rule.regex) != 1 {
        return Err(1);
      }
      var found := en.search(c.rule.regex, c.raw);
      if found.None? {
        return Err(2);
      }
      var converted := en.convert(found.value, c.rule);
      if converted.None? {
        return Err(3);
      }
      var date := converted.value;
      if date <= c.now4 || date > MaxFuture(c.now4, settings.maxAgeYears) {
        return Err(4);
      }
      var registered := ReadsRegistration(c.rule, c.raw, date);
      if registered {
        return Err(4);
      }
      return Ok(date);
    }

    method Gate5(c: Call, fetch: string -> Fetch) returns (r: CrossCheck)
      requires EarlyGates(settings, en, c.rule, c.raw, c.now4).Ok?
      modifies this
      ensures r == CrossChecked(settings, en, old(cache), c, fetch)
      ensures cache == CacheAfter(settings, en, old(cache), c, fetch)
    {
      var kg := ChooseKnownGood(c.tld, c.domain);
      if kg.None? {
        return Passes;
      }
      var key := CacheKey(c.tld, kg.value);
      var text: string;
      if key in cache && c.now5 - cache[key].at < settings.ttl as real {
        text := cache[key].text;
      } else {
        match fetch(kg.value) {
          case FetchTransient => return NoAnswer;
          case FetchPermanent => return Passes;
          case Body(body) =>
            if Strip(body) == [] {
              return NoAnswer;
            }
            cache := cache[key := Cached(c.now5, body)];
            text := body;
        }
      }
      r := if en.search(c.rule.regex, text).None? then Fails else Passes;
    }

    method Validate(c: Call, fetch: string -> Fetch) returns (verdict: Verdict)
      modifies this
      ensures verdict == Validated(settings, en, old(cache), c, fetch)
      ensures cache == CacheAfter(settings, en, old(cache), c, fetch)
    {
      var early := PassEarlyGates(c);
      if early.Err? {
        return Rejected(early.error);
      }
      var cross := Gate5(c, fetch);
      match cross {
        case NoAnswer => return Transient;
        case Fails => return Rejected(5);
        case Passes =>
      }
      verdict := if IsSentinel(early.value) then Rejected(6) else Accepted(early.value);
    }
  }
}
