/**
 The known-good cache inside whole runs of parses and revalidation passes: a service whose pipeline has no
 cache goes through the same rows, events and limiter histories.
 */
module CacheRuns {
  import opened Common
  import opened LearnedRules
  import opened ValidationPipeline
  import opened ParsingService
  import opened Revalidation
  import Whois

  // ------------------------------------------------------- the pipeline calls of a run

  function CallOf(rule: Whois.ParseRule, c: ParseCall): Call {
    ValidationCall(rule, c.raw, c.domain, c.now4, c.now5)
  }

  function CallsOfParse(svc: Service, w: World, c: ParseCall): seq<Call>
    requires svc.Valid()
  {
    if Asks(svc, w, c) && c.suggestion.Some? then [CallOf(c.suggestion.value, c)] else []
  }

  function CallsOfVisit(svc: Service, row: LearnedRule, p: Pass): seq<Call> {
    var v := p.visits(row.id);
    if Due(svc, row, p.now) && v.raw.Some?
    then [ValidationCall(row.rule, v.raw.value, row.sampleDomain, v.now4, v.now5)] else []
  }

  function CallsOfPass(svc: Service, listed: Rows, p: Pass): seq<Call> {
    if listed == [] then []
    else CallsOfPass(svc, listed[..|listed| - 1], p) + CallsOfVisit(svc, listed[|listed| - 1], p)
  }

  function CallsOfAction(svc: Service, w: World, a: Action): seq<Call>
    requires svc.Valid()
  {
    match a
    case ParseText(c) => CallsOfParse(svc, w, c)
    case RunPass(p) => CallsOfPass(svc, Enabled(w.rows), p)
  }

  function CallsOf(svc: Service, actions: seq<Action>): seq<Call>
    requires svc.Valid()
  {
    if actions == [] then []
    else
      var before := actions[..|actions| - 1];
      CallsOf(svc, before) + CallsOfAction(svc, Replay(svc, before), actions[|actions| - 1])
  }

  /** Fetches answer what the servers answer at that moment. */
  ghost predicate Truthful(servers: Servers, fetch: string -> Fetch, now: Instant) {
    forall d :: fetch(d) == servers(now, d)
  }

  ghost predicate TruthfulPass(servers: Servers, p: Pass) {
    forall id :: Truthful(servers, p.visits(id).fetch, p.visits(id).now5)
  }

  ghost predicate TruthfulAction(servers: Servers, a: Action) {
    match a
    case ParseText(c) => Truthful(servers, c.fetch, c.now5)
    case RunPass(p) => TruthfulPass(servers, p)
  }

  // ------------------------------------------------------------- without the cache

  function Bare(w: World): World { w.(cache := map[]) }

  function BarePassOver(svc: Service, w: World, listed: Rows, p: Pass): World {
    if listed == [] then Bare(w)
    else Bare(MaybeVisited(svc, BarePassOver(svc, w, listed[..|listed| - 1], p), listed[|listed| - 1], p))
  }

  function BareApply(svc: Service, w: World, a: Action): World
    requires svc.Valid()
  {
    match a
    case ParseText(c) => Bare(Step(svc, w, c).0)
    case RunPass(p) => BarePassOver(svc, w, Enabled(w.rows), p)
  }

  /** The run of a service that forgets its cache before every call of the pipeline. */
  function BareReplay(svc: Service, actions: seq<Action>): World
    requires svc.Valid()
  {
    if actions == [] then EMPTY else BareApply(svc, BareReplay(svc, actions[..|actions| - 1]), actions[|actions| - 1])
  }

  // -------------------------------------------------------------------- lemmas

  lemma SameFetch(st: Settings, en: Whois.Engine, cache: Cache, c: Call, f: string -> Fetch, g: string -> Fetch)
    requires forall d :: f(d) == g(d)
    ensures CacheAfter(st, en, cache, c, f) == CacheAfter(st, en, cache, c, g)
    ensures CrossChecked(st, en, cache, c, f) == CrossChecked(st, en, cache, c, g)
  {
  }

  /** The cache, as the calls so far have left it. */
  ghost predicate Tracks(svc: Service, servers: Servers, cache: Cache, calls: seq<Call>) {
    cache == CacheOver(svc.settings, svc.en, servers, calls)
  }

  lemma TracksOneMore(svc: Service, servers: Servers, cache: Cache, calls: seq<Call>, c: Call, fetch: string -> Fetch)
    requires Tracks(svc, servers, cache, calls) && Truthful(servers, fetch, c.now5)
    ensures Tracks(svc, servers, CacheAfter(svc.settings, svc.en, cache, c, fetch), calls + [c])
  {
    SameFetch(svc.settings, svc.en, cache, c, fetch, AtMoment(servers, c.now5));
    assert (calls + [c])[..|calls + [c]| - 1] == calls;
  }

  /** What the theorems assume of the calls of a run. */
  ghost predicate Sound(svc: Service, servers: Servers, calls: seq<Call>) {
    InOrder(calls) && StoredTextsLast(svc.settings, svc.en, servers, calls)
  }

  lemma SoundPrefix(svc: Service, servers: Servers, calls: seq<Call>, more: seq<Call>)
    requires Sound(svc, servers, calls + more)
    ensures Sound(svc, servers, calls)
  {
    assert (calls + more)[..|calls|] == calls;
    StoredPrefixLasts(svc.settings, svc.en, servers, calls + more, |calls|);
    forall i, j | 0 <= i < j < |calls|
      ensures calls[i].now5 <= calls[j].now5
    {
      assert (calls + more)[i].now5 <= (calls + more)[j].now5;
    }
  }

  /** One call of the pipeline, with its cache and without. */
  lemma SameVerdict(svc: Service, servers: Servers, cache: Cache, calls: seq<Call>, c: Call, fetch: string -> Fetch)
    requires Tracks(svc, servers, cache, calls) && Truthful(servers, fetch, c.now5) && Sound(svc, servers, calls + [c])
    ensures Validated(svc.settings, svc.en, cache, c, fetch) == Validated(svc.settings, svc.en, map[], c, fetch)
  {
    SoundPrefix(svc, servers, calls, [c]);
    SameFetch(svc.settings, svc.en, cache, c, fetch, AtMoment(servers, c.now5));
    SameFetch(svc.settings, svc.en, map[], c, fetch, AtMoment(servers, c.now5));
    CacheIsTransparent(svc.settings, svc.en, servers, calls, c);
  }

  // --------------------------------------------------------------------- a parse

  /** A parse that does not call the pipeline neither reads nor changes the cache. */
  lemma ParseWithoutCall(svc: Service, w: World, c: ParseCall)
    requires svc.Valid() && CallsOfParse(svc, w, c) == []
    ensures Step(svc, w, c).0.cache == w.cache
    ensures Step(svc, Bare(w), c) == (Bare(Step(svc, w, c).0), Step(svc, w, c).1)
  {
  }

  lemma PersistIgnoresCache(svc: Service, w: World, w': World, c: ParseCall, rule: Whois.ParseRule)
    requires Bare(w) == Bare(w')
    ensures Persist(svc, w, c, rule).0.cache == w.cache
    ensures Bare(Persist(svc, w', c, rule).0) == Bare(Persist(svc, w, c, rule).0)
    ensures Persist(svc, w', c, rule).1 == Persist(svc, w, c, rule).1
  {
    assert w'.rows == w.rows && w'.log == w.log;
  }

  lemma LearnWithCall(svc: Service, w: World, c: ParseCall)
    requires c.suggestion.Some? && VerdictOf(svc, w, c) == VerdictOf(svc, Bare(w), c)
    ensures Learn(svc, w, c).0.cache
         == CacheAfter(svc.settings, svc.en, w.cache, CallOf(c.suggestion.value, c), c.fetch)
    ensures (Bare(Learn(svc, Bare(w), c).0), Learn(svc, Bare(w), c).1) == (Bare(Learn(svc, w, c).0), Learn(svc, w, c).1)
  {
    var rule := c.suggestion.value;
    var w1 := w.(cache := CacheAfter(svc.settings, svc.en, w.cache, CallOf(rule, c), c.fetch));
    var w2 := Bare(w).(cache := CacheAfter(svc.settings, svc.en, map[], CallOf(rule, c), c.fetch));
    match VerdictOf(svc, w, c)
    case Accepted(_) =>
      PersistIgnoresCache(svc, w1, w2, c, rule);
      assert Learn(svc, w, c) == Persist(svc, w1, c, rule);
      assert Learn(svc, Bare(w), c) == Persist(svc, w2, c, rule);
    case Rejected(g) =>
      assert Learn(svc, w, c).0 == w1.(log := w.log + [ParseFailed(c.domain, ValidationRejected, true)]);
      assert Learn(svc, Bare(w), c).0 == w2.(log := w.log + [ParseFailed(c.domain, ValidationRejected, true)]);
    case Transient =>
      assert Learn(svc, w, c).0 == w1.(log := w.log + [ParseFailed(c.domain, ValidationTransient, true)]);
      assert Learn(svc, Bare(w), c).0 == w2.(log := w.log + [ParseFailed(c.domain, ValidationTransient, true)]);
  }

  lemma ParseWithCall(svc: Service, w: World, c: ParseCall)
    requires svc.Valid() && Asks(svc, w, c) && c.suggestion.Some?
    requires VerdictOf(svc, w, c) == VerdictOf(svc, Bare(w), c)
    ensures Step(svc, w, c).0.cache
         == CacheAfter(svc.settings, svc.en, w.cache, CallOf(c.suggestion.value, c), c.fetch)
    ensures (Bare(Step(svc, Bare(w), c).0), Step(svc, Bare(w), c).1) == (Bare(Step(svc, w, c).0), Step(svc, w, c).1)
  {
    LearnWithCall(svc, w.(hostCalls := HostCalls(svc, w, c), tldCalls := TldCalls(svc, w, c)), c);
  }

  /** A parse gives the same reply and changes the same things with the cache and without. */
  lemma ParseIsTransparent(svc: Service, servers: Servers, w: World, calls: seq<Call>, c: ParseCall)
    requires svc.Valid() && Tracks(svc, servers, w.cache, calls) && Truthful(servers, c.fetch, c.now5)
    requires Sound(svc, servers, calls + CallsOfParse(svc, w, c))
    ensures Tracks(svc, servers, Step(svc, w, c).0.cache, calls + CallsOfParse(svc, w, c))
    ensures Bare(Step(svc, Bare(w), c).0) == Bare(Step(svc, w, c).0) && Step(svc, Bare(w), c).1 == Step(svc, w, c).1
  {
    if Asks(svc, w, c) && c.suggestion.Some? {
      var call := CallOf(c.suggestion.value, c);
      SameVerdict(svc, servers, w.cache, calls, call, c.fetch);
      ParseWithCall(svc, w, c);
      TracksOneMore(svc, servers, w.cache, calls, call, c.fetch);
    } else {
      ParseWithoutCall(svc, w, c);
      assert calls + [] == calls;
    }
  }

  // ---------------------------------------------------------------------- a pass

  /** What a visit does depends on the cache only through its verdict. */
  lemma VisitWithCall(svc: Service, w: World, row: LearnedRule, v: Visit, call: Call)
    requires v.raw.Some? && call == ValidationCall(row.rule, v.raw.value, row.sampleDomain, v.now4, v.now5)
    requires Validated(svc.settings, svc.en, w.cache, call, v.fetch)
            == Validated(svc.settings, svc.en, map[], call, v.fetch)
    ensures Visited(svc, w, row, v).cache == CacheAfter(svc.settings, svc.en, w.cache, call, v.fetch)
    ensures Bare(Visited(svc, Bare(w), row, v)) == Bare(Visited(svc, w, row, v))
  {
    var after, bare := Visited(svc, w, row, v), Visited(svc, Bare(w), row, v);
    assert bare.rows == after.rows && bare.log == after.log by {
      match Validated(svc.settings, svc.en, w.cache, call, v.fetch)
      case Transient =>
      case Rejected(_) => assert HasRow(w.rows, row.id) == HasRow(Bare(w).rows, row.id);
      case Accepted(_) => assert HasRow(w.rows, row.id) == HasRow(Bare(w).rows, row.id);
    }
    assert bare.hostCalls == after.hostCalls && bare.tldCalls == after.tldCalls;
  }

  lemma VisitIsTransparent(svc: Service, servers: Servers, w: World, calls: seq<Call>, row: LearnedRule, p: Pass)
    requires Tracks(svc, servers, w.cache, calls) && TruthfulPass(servers, p)
    requires Sound(svc, servers, calls + CallsOfVisit(svc, row, p))
    ensures Tracks(svc, servers, MaybeVisited(svc, w, row, p).cache, calls + CallsOfVisit(svc, row, p))
    ensures Bare(MaybeVisited(svc, Bare(w), row, p)) == Bare(MaybeVisited(svc, w, row, p))
  {
    var v := p.visits(row.id);
    if Due(svc, row, p.now) && v.raw.Some? {
      var call := ValidationCall(row.rule, v.raw.value, row.sampleDomain, v.now4, v.now5);
      assert Truthful(servers, v.fetch, v.now5);
      SameVerdict(svc, servers, w.cache, calls, call, v.fetch);
      TracksOneMore(svc, servers, w.cache, calls, call, v.fetch);
      VisitWithCall(svc, w, row, v, call);
    } else {
      assert calls + [] == calls;
    }
  }

  lemma {:induction false} PassIsTransparent(svc: Service, servers: Servers, w: World, calls: seq<Call>, listed: Rows,
                                             p: Pass)
    requires Tracks(svc, servers, w.cache, calls) && TruthfulPass(servers, p)
    requires Sound(svc, servers, calls + CallsOfPass(svc, listed, p))
    ensures Tracks(svc, servers, PassOver(svc, w, listed, p).cache, calls + CallsOfPass(svc, listed, p))
    ensures BarePassOver(svc, Bare(w), listed, p) == Bare(PassOver(svc, w, listed, p))
  {
    if listed == [] {
      assert calls + [] == calls;
    } else {
      var before, row := listed[..|listed| - 1], listed[|listed| - 1];
      var first, more := calls + CallsOfPass(svc, before, p), CallsOfVisit(svc, row, p);
      assert calls + CallsOfPass(svc, listed, p) == first + more;
      SoundPrefix(svc, servers, first, more);
      PassIsTransparent(svc, servers, w, calls, before, p);
      VisitIsTransparent(svc, servers, PassOver(svc, w, before, p), first, row, p);
    }
  }

  // ------------------------------------------------------------------ whole runs

  lemma ActionIsTransparent(svc: Service, servers: Servers, w: World, calls: seq<Call>, a: Action)
    requires svc.Valid() && Tracks(svc, servers, w.cache, calls) && TruthfulAction(servers, a)
    requires Sound(svc, servers, calls + CallsOfAction(svc, w, a))
    ensures Tracks(svc, servers, Apply(svc, w, a).cache, calls + CallsOfAction(svc, w, a))
    ensures BareApply(svc, Bare(w), a) == Bare(Apply(svc, w, a))
  {
    match a
    case ParseText(c) => ParseIsTransparent(svc, servers, w, calls, c);
    case RunPass(p) => PassIsTransparent(svc, servers, w, calls, Enabled(w.rows), p);
  }

  /**
   Over any run of parses and passes, the cache changes nothing but itself: without it, the rows, the
   events and the limiters' histories are the same.
   */
  lemma {:induction false} RunsAreTransparent(svc: Service, servers: Servers, actions: seq<Action>)
    requires svc.Valid() && forall k :: 0 <= k < |actions| ==> TruthfulAction(servers, actions[k])
    requires Sound(svc, servers, CallsOf(svc, actions))
    ensures Tracks(svc, servers, Replay(svc, actions).cache, CallsOf(svc, actions))
    ensures BareReplay(svc, actions) == Bare(Replay(svc, actions))
  {
    if actions != [] {
      var before, a := actions[..|actions| - 1], actions[|actions| - 1];
      SoundPrefix(svc, servers, CallsOf(svc, before), CallsOfAction(svc, Replay(svc, before), a));
      assert forall k :: 0 <= k < |before| ==> before[k] == actions[k];
      RunsAreTransparent(svc, servers, before);
      ActionIsTransparent(svc, servers, Replay(svc, before), CallsOf(svc, before), a);
    }
  }

  /** And so are the replies. */
  lemma RepliesAreTransparent(svc: Service, servers: Servers, actions: seq<Action>, c: ParseCall)
    requires svc.Valid() && forall k :: 0 <= k < |actions| ==> TruthfulAction(servers, actions[k])
    requires Truthful(servers, c.fetch, c.now5) && Sound(svc, servers, CallsOf(svc, actions + [ParseText(c)]))
    ensures Step(svc, Replay(svc, actions), c).1 == Step(svc, BareReplay(svc, actions), c).1
  {
    var calls, more := CallsOf(svc, actions), CallsOfParse(svc, Replay(svc, actions), c);
    assert (actions + [ParseText(c)])[..|actions + [ParseText(c)]| - 1] == actions;
    SoundPrefix(svc, servers, calls, more);
    RunsAreTransparent(svc, servers, actions);
    ParseIsTransparent(svc, servers, Replay(svc, actions), calls, c);
  }
}
