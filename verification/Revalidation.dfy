/**
 Revalidation passes over the learned rules, and whole runs of parses and passes: what the store, the
 event log and the limiters keep in step over any such run.
 */
module Revalidation {
  import opened Common
  import opened Whois
  import opened LearnedRules
  import opened ValidationPipeline
  import opened ParsingService
  import TokenBucket
  import Names

  /** What happens when one rule is looked at: the fetched text, or nothing when the fetch raises. */
  datatype Visit = Visit(raw: Option<string>, now4: Instant, now5: Instant, at: Instant, fetch: string -> Fetch)

  /** One pass: the clock at its start, and the visit of each rule by id. */
  datatype Pass = Pass(now: Instant, visits: nat -> Visit)

  predicate Due(svc: Service, row: LearnedRule, now: Instant) {
    row.lastRevalidatedAt.None? || now - row.lastRevalidatedAt.value >= svc.revalidateAfter as real
  }

  predicate HasRow(rows: Rows, id: nat) { 1 <= id <= |rows| }

  /** The visit of a due rule. Only a rejection disables it; transport failures leave it alone. */
  function Visited(svc: Service, w: World, row: LearnedRule, v: Visit): World {
    if v.raw.None? then w
    else
      var call := ValidationCall(row.rule, v.raw.value, row.sampleDomain, v.now4, v.now5);
      var w1 := w.(cache := CacheAfter(svc.settings, svc.en, w.cache, call, v.fetch));
      match Validated(svc.settings, svc.en, w.cache, call, v.fetch)
      case Transient => w1
      case Rejected(_) =>
        if !HasRow(w.rows, row.id) then w1
        else w1.(rows := DisabledAt(w.rows, row.id), log := w.log + [RuleInvalidated(row.id)])
      case Accepted(_) =>
        if !HasRow(w.rows, row.id) then w1
        else w1.(rows := RevalidatedAt(w.rows, row.id, v.at), log := w.log + [RuleRevalidated(row.id)])
  }

  function MaybeVisited(svc: Service, w: World, row: LearnedRule, p: Pass): World {
    if Due(svc, row, p.now) then Visited(svc, w, row, p.visits(row.id)) else w
  }

  /** The loop of a pass over the rows listed at its start. */
  function PassOver(svc: Service, w: World, listed: Rows, p: Pass): World {
    if listed == [] then w
    else MaybeVisited(svc, PassOver(svc, w, listed[..|listed| - 1], p), listed[|listed| - 1], p)
  }

  function AfterPass(svc: Service, w: World, p: Pass): World {
    PassOver(svc, w, Enabled(w.rows), p)
  }

  // ---------------------------------------------------------------- the ledger

  function IsLearned(id: nat): Event -> bool { (e: Event) => e.RuleLearned? && e.id == id }

  function IsRevalidated(id: nat): Event -> bool { (e: Event) => e == RuleRevalidated(id) }

  function IsInvalidated(id: nat): Event -> bool { (e: Event) => e == RuleInvalidated(id) }

  /** The events of one id tell its row: learned once, counted revalidations, invalidated when disabled. */
  ghost predicate Told(rows: Rows, log: seq<Event>, id: nat) {
    if HasRow(rows, id) then
      && CountIf(log, IsLearned(id)) == 1
      && CountIf(log, IsRevalidated(id)) == rows[id - 1].revalidations
      && CountIf(log, IsInvalidated(id)) == (if rows[id - 1].disabled then 1 else 0)
    else
      CountIf(log, IsLearned(id)) == CountIf(log, IsRevalidated(id)) == CountIf(log, IsInvalidated(id)) == 0
  }

  ghost predicate Ledger(w: World) {
    && Numbered(w.rows) && Unique(w.rows)
    && forall id: nat :: Told(w.rows, w.log, id)
  }

  lemma LogAll(log: seq<Event>, e: Event, id: nat)
    ensures CountIf(log + [e], IsLearned(id)) == CountIf(log, IsLearned(id)) + if IsLearned(id)(e) then 1 else 0
    ensures CountIf(log + [e], IsRevalidated(id))
            == CountIf(log, IsRevalidated(id)) + if IsRevalidated(id)(e) then 1 else 0
    ensures CountIf(log + [e], IsInvalidated(id))
            == CountIf(log, IsInvalidated(id)) + if IsInvalidated(id)(e) then 1 else 0
  {
    CountAppendOne(log, e, IsLearned(id));
    CountAppendOne(log, e, IsRevalidated(id));
    CountAppendOne(log, e, IsInvalidated(id));
  }

  /** A failed parse leaves the ledger's books as they are. */
  lemma FailureKeepsLedger(w: World, w': World, e: Event)
    requires Ledger(w) && w'.rows == w.rows && w'.log == w.log + [e] && e.ParseFailed?
    ensures Ledger(w')
  {
    forall id: nat
      ensures Told(w'.rows, w'.log, id)
    {
      LogAll(w.log, e, id);
      assert Told(w.rows, w.log, id);
    }
  }

  lemma NewRowStaysUnique(rows: Rows, row: LearnedRule)
    requires Unique(rows) && !Duplicate(rows, row.rule) && !row.disabled
    ensures Unique(rows + [row])
  {
    var after := rows + [row];
    forall j, k | 0 <= j < k < |after| && !after[j].disabled
      ensures !Clashes(after[k], after[j].rule)
    {
      if k == |rows| {
        assert !Clashes(rows[j], row.rule);
      }
    }
  }

  lemma LearningKeepsLedger(w: World, w': World, row: LearnedRule, tld: string, domain: string)
    requires Ledger(w) && !Duplicate(w.rows, row.rule)
    requires row.id == |w.rows| + 1 && !row.disabled && row.revalidations == 0
    requires w'.rows == w.rows + [row] && w'.log == w.log + [RuleLearned(row.id, tld, domain)]
    ensures Ledger(w')
  {
    NewRowStaysUnique(w.rows, row);
    forall id: nat
      ensures Told(w'.rows, w'.log, id)
    {
      LogAll(w.log, RuleLearned(row.id, tld, domain), id);
      assert Told(w.rows, w.log, id);
    }
  }

  lemma LearnKeepsLedger(svc: Service, w: World, c: ParseCall)
    requires Ledger(w)
    ensures Ledger(Learn(svc, w, c).0)
  {
    var w' := Learn(svc, w, c).0;
    if c.suggestion.None? {
      FailureKeepsLedger(w, w', ParseFailed(c.domain, SuggestionFailed, true));
    } else {
      match VerdictOf(svc, w, c)
      case Transient => FailureKeepsLedger(w, w', ParseFailed(c.domain, ValidationTransient, true));
      case Rejected(_) => FailureKeepsLedger(w, w', ParseFailed(c.domain, ValidationRejected, true));
      case Accepted(_) =>
        var call := ValidationCall(c.suggestion.value, c.raw, c.domain, c.now4, c.now5);
        PersistKeepsLedger(svc, w.(cache := CacheAfter(svc.settings, svc.en, w.cache, call, c.fetch)), c,
            c.suggestion.value);
    }
  }

  lemma PersistKeepsLedger(svc: Service, w: World, c: ParseCall, rule: ParseRule)
    requires Ledger(w)
    ensures Ledger(Persist(svc, w, c, rule).0)
  {
    if !Duplicate(w.rows, rule) {
      var row := NewRow(w.rows, rule, c.raw, c.domain, svc.suggesterId, svc.pipelineVersion);
      var w1 := w.(rows := w.rows + [row], log := w.log + [RuleLearned(row.id, rule.tld, c.domain)]);
      LearningKeepsLedger(w, w1, row, rule.tld, c.domain);
      if !Parse(svc.en, c.raw, Names.Tld(c.domain), [rule]).Date? {
        FailureKeepsLedger(w1, Persist(svc, w, c, rule).0, ParseFailed(c.domain, PostLearnFailure, true));
      }
    }
  }

  lemma ParseKeepsLedger(svc: Service, w: World, c: ParseCall)
    requires svc.Valid() && Ledger(w)
    ensures Ledger(Step(svc, w, c).0)
  {
    var w' := Step(svc, w, c).0;
    if Known(svc, w.rows, c.raw, c.domain) == NoMatch {
      if !svc.fallback {
        FailureKeepsLedger(w, w', ParseFailed(c.domain, NoRule, false));
      } else if !HostGrants(svc, w, c) {
        FailureKeepsLedger(w, w', ParseFailed(c.domain, RateHost, false));
      } else if !TldGrants(svc, w, c) {
        FailureKeepsLedger(w, w', ParseFailed(c.domain, RateTld, false));
      } else {
        LearnKeepsLedger(svc, w.(hostCalls := HostCalls(svc, w, c), tldCalls := TldCalls(svc, w, c)), c);
      }
    }
  }

  lemma OneRowStaysUnique(rows: Rows, k: nat, row: LearnedRule)
    requires Unique(rows) && k < |rows| && row.rule == rows[k].rule && (rows[k].disabled ==> row.disabled)
    ensures Unique(rows[k := row])
  {
    var after := rows[k := row];
    forall i, j | 0 <= i < j < |after| && !after[i].disabled
      ensures !Clashes(after[j], after[i].rule)
    {
      assert !Clashes(rows[j], rows[i].rule);
    }
  }

  lemma DisablingKeepsLedger(w: World, w': World, id: nat)
    requires Ledger(w) && HasRow(w.rows, id) && !w.rows[id - 1].disabled
    requires w'.rows == DisabledAt(w.rows, id) && w'.log == w.log + [RuleInvalidated(id)]
    ensures Ledger(w')
  {
    OneRowStaysUnique(w.rows, id - 1, w.rows[id - 1].(disabled := true));
    forall other: nat
      ensures Told(w'.rows, w'.log, other)
    {
      assert Told(w.rows, w.log, other);
      LogAll(w.log, RuleInvalidated(id), other);
    }
  }

  lemma RevalidatingKeepsLedger(w: World, w': World, id: nat, at: Instant)
    requires Ledger(w) && HasRow(w.rows, id)
    requires w'.rows == RevalidatedAt(w.rows, id, at) && w'.log == w.log + [RuleRevalidated(id)]
    ensures Ledger(w')
  {
    OneRowStaysUnique(w.rows, id - 1, RevalidatedAt(w.rows, id, at)[id - 1]);
    forall other: nat
      ensures Told(w'.rows, w'.log, other)
    {
      assert Told(w.rows, w.log, other);
      LogAll(w.log, RuleRevalidated(id), other);
    }
  }

  /** Row `id` at most may have changed, and not its rule, nor from disabled to enabled. */
  ghost predicate OnlyRow(before: Rows, after: Rows, id: nat) {
    && Extends(before, after)
    && |after| == |before|
    && forall k :: 0 <= k < |after| && k != id - 1 ==> after[k] == before[k]
  }

  /** A visit changes the visited row only, by one of its two operations, and says so once. */
  lemma VisitKeepsLedger(svc: Service, w: World, row: LearnedRule, v: Visit)
    requires Ledger(w) && HasRow(w.rows, row.id) && w.rows[row.id - 1] == row && !row.disabled
    ensures Ledger(Visited(svc, w, row, v)) && OnlyRow(w.rows, Visited(svc, w, row, v).rows, row.id)
  {
    if v.raw.Some? {
      var call := ValidationCall(row.rule, v.raw.value, row.sampleDomain, v.now4, v.now5);
      match Validated(svc.settings, svc.en, w.cache, call, v.fetch)
      case Transient =>
      case Rejected(_) => DisablingKeepsLedger(w, Visited(svc, w, row, v), row.id);
      case Accepted(_) => RevalidatingKeepsLedger(w, Visited(svc, w, row, v), row.id, v.at);
    }
  }

  // ------------------------------------------------------------------- a pass

  /** The rows to visit are rows of the store, each listed once. */
  ghost predicate Lists(rows: Rows, listed: Rows) {
    && (forall i :: 0 <= i < |listed| ==>
          HasRow(rows, listed[i].id) && rows[listed[i].id - 1] == listed[i] && !listed[i].disabled)
    && (forall i, j :: 0 <= i < j < |listed| ==> listed[i].id < listed[j].id)
  }

  lemma {:induction false} EnabledLists(rows: Rows)
    requires Numbered(rows)
    ensures Lists(rows, Enabled(rows))
    ensures forall i :: 0 <= i < |Enabled(rows)| ==> Enabled(rows)[i].id <= |rows|
  {
    if rows != [] {
      EnabledLists(rows[..|rows| - 1]);
    }
  }

  /** Some listed row with this id is due. */
  predicate DueIn(svc: Service, listed: Rows, p: Pass, id: nat) {
    exists i :: 0 <= i < |listed| && listed[i].id == id && Due(svc, listed[i], p.now)
  }

  lemma {:induction false} PassKeepsLedger(svc: Service, w: World, listed: Rows, p: Pass)
    requires Ledger(w) && Lists(w.rows, listed)
    ensures Ledger(PassOver(svc, w, listed, p))
    ensures var rows := PassOver(svc, w, listed, p).rows;
            && |rows| == |w.rows| && Extends(w.rows, rows)
            && forall k :: 0 <= k < |rows| && !DueIn(svc, listed, p, k + 1) ==> rows[k] == w.rows[k]
  {
    if listed != [] {
      var m := |listed| - 1;
      var row := listed[m];
      var before := PassOver(svc, w, listed[..m], p);
      PassKeepsLedger(svc, w, listed[..m], p);
      if Due(svc, row, p.now) {
        assert !DueIn(svc, listed[..m], p, row.id);
        assert before.rows[row.id - 1] == w.rows[row.id - 1];
        VisitKeepsLedger(svc, before, row, p.visits(row.id));
      }
      DueInPrefix(svc, listed, p);
    }
  }

  lemma DueInPrefix(svc: Service, listed: Rows, p: Pass)
    requires listed != []
    ensures forall id :: DueIn(svc, listed[..|listed| - 1], p, id) ==> DueIn(svc, listed, p, id)
    ensures Due(svc, listed[|listed| - 1], p.now) ==> DueIn(svc, listed, p, listed[|listed| - 1].id)
  {
    forall id | DueIn(svc, listed[..|listed| - 1], p, id)
      ensures DueIn(svc, listed, p, id)
    {
      var i :| 0 <= i < |listed| - 1 && listed[..|listed| - 1][i].id == id
          && Due(svc, listed[..|listed| - 1][i], p.now);
      assert listed[i].id == id && Due(svc, listed[i], p.now);
    }
  }

  // -------------------------------------------------- what becomes of a visited row

  /** The verdict on a row's rule from the text that a visit fetched; none when the fetch raised. */
  function VerdictOn(svc: Service, cache: Cache, row: LearnedRule, v: Visit): Option<Verdict> {
    if v.raw.None? then None
    else
      Some(Validated(svc.settings, svc.en, cache,
                     ValidationCall(row.rule, v.raw.value, row.sampleDomain, v.now4, v.now5), v.fetch))
  }

  predicate Rejects(verdict: Option<Verdict>) { verdict.Some? && verdict.value.Rejected? }

  predicate Accepts(verdict: Option<Verdict>) { verdict.Some? && verdict.value.Accepted? }

  /** A rejection disables the row, an acceptance stamps and counts it, anything else leaves it as it was. */
  predicate Became(before: LearnedRule, after: LearnedRule, verdict: Option<Verdict>, at: Instant) {
    after == before.(disabled := before.disabled || Rejects(verdict),
                     revalidations := before.revalidations + One(Accepts(verdict)),
                     lastRevalidatedAt := if Accepts(verdict) then Some(at) else before.lastRevalidatedAt)
  }

  /** The row after a visit, and the event, by the verdict. */
  lemma VisitIs(svc: Service, w: World, row: LearnedRule, v: Visit)
    requires HasRow(w.rows, row.id) && w.rows[row.id - 1] == row
    ensures var w', verdict := Visited(svc, w, row, v), VerdictOn(svc, w.cache, row, v);
            && HasRow(w'.rows, row.id) && Became(row, w'.rows[row.id - 1], verdict, v.at)
            && w'.log == w.log + (if Rejects(verdict) then [RuleInvalidated(row.id)]
                                  else if Accepts(verdict) then [RuleRevalidated(row.id)] else [])
  {
    assert w.log + [] == w.log;
  }

  /** The pass up to the rows before row `k`. */
  function Before(svc: Service, w: World, p: Pass, k: nat): World
    requires k <= |w.rows|
  {
    PassOver(svc, w, Enabled(w.rows[..k]), p)
  }

  lemma EnabledPrefixLists(rows: Rows, k: nat)
    requires Numbered(rows) && k <= |rows|
    ensures Lists(rows, Enabled(rows[..k]))
    ensures forall i :: 0 <= i < |Enabled(rows[..k])| ==> Enabled(rows[..k])[i].id <= k
  {
    EnabledLists(rows[..k]);
  }

  /** When the pass gets to a row, the row is as it was, */
  lemma UntouchedBefore(svc: Service, w: World, p: Pass, k: nat)
    requires Ledger(w) && k < |w.rows|
    ensures Ledger(Before(svc, w, p, k)) && |Before(svc, w, p, k).rows| == |w.rows|
    ensures Before(svc, w, p, k).rows[k] == w.rows[k]
  {
    EnabledPrefixLists(w.rows, k);
    PassKeepsLedger(svc, w, Enabled(w.rows[..k]), p);
    assert !DueIn(svc, Enabled(w.rows[..k]), p, k + 1);
  }

  lemma BeforeMore(svc: Service, w: World, p: Pass, k: nat)
    requires k < |w.rows|
    ensures Before(svc, w, p, k + 1)
         == if w.rows[k].disabled then Before(svc, w, p, k) else MaybeVisited(svc, Before(svc, w, p, k), w.rows[k], p)
  {
    assert w.rows[..k + 1][..k] == w.rows[..k];
    var enabled := Enabled(w.rows[..k]);
    assert (enabled + [w.rows[k]])[..|enabled|] == enabled;
    assert enabled + [] == enabled;
  }

  function RowIn(w: World, k: nat): Option<LearnedRule> {
    if k < |w.rows| then Some(w.rows[k]) else None
  }

  lemma VisitLeavesOthers(svc: Service, w: World, p: Pass, k: nat, n: nat)
    requires Ledger(w) && k < n < |w.rows|
    ensures RowIn(Before(svc, w, p, n + 1), k) == RowIn(Before(svc, w, p, n), k)
  {
    UntouchedBefore(svc, w, p, n);
    BeforeMore(svc, w, p, n);
    if !w.rows[n].disabled && Due(svc, w.rows[n], p.now) {
      VisitKeepsLedger(svc, Before(svc, w, p, n), w.rows[n], p.visits(n + 1));
    }
  }

  lemma BeforeKeepsRows(svc: Service, w: World, p: Pass, n: nat)
    requires Ledger(w) && n <= |w.rows|
    ensures |Before(svc, w, p, n).rows| == |w.rows|
  {
    EnabledPrefixLists(w.rows, n);
    PassKeepsLedger(svc, w, Enabled(w.rows[..n]), p);
  }

  /** and the rows after it leave it alone. */
  lemma {:induction false} UntouchedAfter(svc: Service, w: World, p: Pass, k: nat, n: nat)
    requires Ledger(w) && k < n <= |w.rows|
    ensures RowIn(Before(svc, w, p, n), k) == RowIn(Before(svc, w, p, k + 1), k)
    decreases n
  {
    if k + 1 < n {
      UntouchedAfter(svc, w, p, k, n - 1);
      VisitLeavesOthers(svc, w, p, k, n - 1);
    }
  }

  /**
   The verdict of a pass on a row: enabled rows are visited once, when they were never stamped or their stamp
   is as old as the interval says.
   */
  function PassVerdict(svc: Service, w: World, p: Pass, k: nat): Option<Verdict>
    requires k < |w.rows|
  {
    var stamp := w.rows[k].lastRevalidatedAt;
    if w.rows[k].disabled || (stamp.Some? && p.now < stamp.value + svc.revalidateAfter as real) then None
    else VerdictOn(svc, Before(svc, w, p, k).cache, w.rows[k], p.visits(k + 1))
  }

  /** What becomes of every row in a pass: what the verdict of its own visit says, whatever the other visits do. */
  lemma PassIs(svc: Service, w: World, p: Pass, k: nat)
    requires Ledger(w) && k < |w.rows|
    ensures |AfterPass(svc, w, p).rows| == |w.rows|
    ensures Became(w.rows[k], AfterPass(svc, w, p).rows[k], PassVerdict(svc, w, p, k), p.visits(k + 1).at)
  {
    var row := w.rows[k];
    UntouchedBefore(svc, w, p, k);
    BeforeMore(svc, w, p, k);
    BeforeKeepsRows(svc, w, p, k + 1);
    BeforeKeepsRows(svc, w, p, |w.rows|);
    UntouchedAfter(svc, w, p, k, |w.rows|);
    assert w.rows[..|w.rows|] == w.rows;
    if !row.disabled && Due(svc, row, p.now) {
      VisitIs(svc, Before(svc, w, p, k), row, p.visits(row.id));
    }
  }

  /** In particular a pass leaves every row alone that is disabled or not due. */
  lemma NotDueIsUntouched(svc: Service, w: World, p: Pass, k: nat)
    requires Ledger(w) && k < |w.rows| && (w.rows[k].disabled || !Due(svc, w.rows[k], p.now))
    ensures |AfterPass(svc, w, p).rows| == |w.rows| && AfterPass(svc, w, p).rows[k] == w.rows[k]
  {
    PassIs(svc, w, p, k);
  }

  // --------------------------------------------------------------- whole runs

  datatype Action = ParseText(call: ParseCall) | RunPass(pass: Pass)

  function Apply(svc: Service, w: World, a: Action): World
    requires svc.Valid()
  {
    match a
    case ParseText(c) => Step(svc, w, c).0
    case RunPass(p) => AfterPass(svc, w, p)
  }

  function Replay(svc: Service, actions: seq<Action>): World
    requires svc.Valid()
  {
    if actions == [] then EMPTY else Apply(svc, Replay(svc, actions[..|actions| - 1]), actions[|actions| - 1])
  }

  /** The rows are the same, or one more for the suggested rule. */
  predicate AtMostOneMore(svc: Service, before: Rows, after: Rows, c: ParseCall) {
    || after == before
    || (c.suggestion.Some?
        && after == before + [NewRow(before, c.suggestion.value, c.raw, c.domain, svc.suggesterId,
            svc.pipelineVersion)])
  }

  lemma LearnAddsOne(svc: Service, w: World, c: ParseCall)
    ensures AtMostOneMore(svc, w.rows, Learn(svc, w, c).0.rows, c)
  {
  }

  lemma ParseAddsOne(svc: Service, w: World, c: ParseCall)
    requires svc.Valid()
    ensures if Asks(svc, w, c) then AtMostOneMore(svc, w.rows, Step(svc, w, c).0.rows, c)
            else Step(svc, w, c).0.rows == w.rows
  {
    LearnAddsOne(svc, w.(hostCalls := HostCalls(svc, w, c), tldCalls := TldCalls(svc, w, c)), c);
  }

  lemma ActionKeepsLedger(svc: Service, w: World, a: Action)
    requires svc.Valid() && Ledger(w)
    ensures Ledger(Apply(svc, w, a)) && Extends(w.rows, Apply(svc, w, a).rows)
  {
    match a
    case ParseText(c) =>
      ParseKeepsLedger(svc, w, c);
      ParseAddsOne(svc, w, c);
    case RunPass(p) =>
      EnabledLists(w.rows);
      PassKeepsLedger(svc, w, Enabled(w.rows), p);
  }

  /**
   Over any run of parses and passes: ids count up, enabled rules of one TLD and pattern stay unique, a
   rule's revalidation count is the number of its revalidated events, and it has one invalidated event
   exactly when it is disabled, else none.
   */
  lemma {:induction false} RunsKeepLedger(svc: Service, actions: seq<Action>)
    requires svc.Valid()
    ensures Ledger(Replay(svc, actions))
  {
    if actions != [] {
      RunsKeepLedger(svc, actions[..|actions| - 1]);
      ActionKeepsLedger(svc, Replay(svc, actions[..|actions| - 1]), actions[|actions| - 1]);
    }
  }

  /** Rows are never forgotten, reordered, rewritten or enabled again. */
  lemma {:induction false} RowsOnlyGrow(svc: Service, actions: seq<Action>, n: nat)
    requires svc.Valid() && n <= |actions|
    ensures Extends(Replay(svc, actions[..n]).rows, Replay(svc, actions).rows)
    decreases |actions|
  {
    if n == |actions| {
      assert actions[..n] == actions;
    } else {
      var before := actions[..|actions| - 1];
      assert before[..n] == actions[..n];
      RowsOnlyGrow(svc, before, n);
      RunsKeepLedger(svc, before);
      ActionKeepsLedger(svc, Replay(svc, before), actions[|actions| - 1]);
    }
  }

  /** The verdict of an action on row `k`: none when it is no pass, or does not visit the row. */
  function VerdictIn(svc: Service, w: World, a: Action, k: nat): Option<Verdict> {
    if a.RunPass? && k < |w.rows| then PassVerdict(svc, w, a.pass, k) else None
  }

  /** How many passes of a run have come to such a verdict on row `k`. */
  function Passes(svc: Service, actions: seq<Action>, k: nat, p: Option<Verdict> -> bool): nat
    requires svc.Valid()
  {
    if actions == [] then 0
    else
      var before, a := actions[..|actions| - 1], actions[|actions| - 1];
      Passes(svc, before, k, p) + One(p(VerdictIn(svc, Replay(svc, before), a, k)))
  }

  /** A row that is not there yet has no verdicts. */
  lemma {:induction false} NoVerdictsYet(svc: Service, actions: seq<Action>, k: nat, p: Option<Verdict> -> bool)
    requires svc.Valid() && k >= |Replay(svc, actions).rows| && !p(None)
    ensures Passes(svc, actions, k, p) == 0
  {
    if actions != [] {
      var before := actions[..|actions| - 1];
      RunsKeepLedger(svc, before);
      ActionKeepsLedger(svc, Replay(svc, before), actions[|actions| - 1]);
      NoVerdictsYet(svc, before, k, p);
    }
  }

  /** What an action does to a row that is there, and what a row is like at first. */
  lemma ActionIs(svc: Service, w: World, a: Action, k: nat)
    requires svc.Valid() && Ledger(w) && k < |Apply(svc, w, a).rows|
    ensures var row, verdict := Apply(svc, w, a).rows[k], VerdictIn(svc, w, a, k);
            if k < |w.rows| then
              && One(row.disabled) == One(w.rows[k].disabled) + One(Rejects(verdict))
              && row.revalidations == w.rows[k].revalidations + One(Accepts(verdict))
            else !row.disabled && row.revalidations == 0 && verdict == None
  {
    if a.RunPass? {
      BeforeKeepsRows(svc, w, a.pass, |w.rows|);
      assert w.rows[..|w.rows|] == w.rows;
      PassIs(svc, w, a.pass, k);
    } else {
      ParseAddsOne(svc, w, a.call);
    }
  }

  /**
   Over any run, a rule is disabled if and only if a pass has rejected it, which happens once at most, and its
   count is the number of the passes that have accepted it: fetches that fail and checks without an answer
   cost a rule nothing.
   */
  lemma {:induction false} DisabledIffRejected(svc: Service, actions: seq<Action>, k: nat)
    requires svc.Valid() && k < |Replay(svc, actions).rows|
    ensures Passes(svc, actions, k, Rejects) == One(Replay(svc, actions).rows[k].disabled)
    ensures Passes(svc, actions, k, Accepts) == Replay(svc, actions).rows[k].revalidations
  {
    var before := actions[..|actions| - 1];
    var w := Replay(svc, before);
    RunsKeepLedger(svc, before);
    ActionIs(svc, w, actions[|actions| - 1], k);
    if k < |w.rows| {
      DisabledIffRejected(svc, before, k);
    } else {
      NoVerdictsYet(svc, before, k, Rejects);
      NoVerdictsYet(svc, before, k, Accepts);
    }
  }

  /** Action `n` is a parse that went through the fallback and returned a date. */
  predicate LearnsAt(svc: Service, actions: seq<Action>, n: nat)
    requires svc.Valid() && n < |actions|
  {
    && actions[n].ParseText?
    && Asks(svc, Replay(svc, actions[..n]), actions[n].call)
    && Step(svc, Replay(svc, actions[..n]), actions[n].call).1.Parsed?
  }

  lemma ReplayOneMore(svc: Service, actions: seq<Action>, n: nat)
    requires svc.Valid() && n < |actions|
    ensures Replay(svc, actions[..n + 1]) == Apply(svc, Replay(svc, actions[..n]), actions[n])
  {
    assert actions[..n + 1][..n] == actions[..n];
  }

  /**
   Learn once, then deterministic: if action `n` of a run learned a rule from a text, then at the end of
   the run, while that rule is enabled, parsing the text again gives the same date and changes nothing.
   */
  lemma LearnOnceThenDeterministic(svc: Service, actions: seq<Action>, n: nat, again: ParseCall)
    requires svc.Valid() && n < |actions| && LearnsAt(svc, actions, n)
    requires again.raw == actions[n].call.raw && again.domain == actions[n].call.domain
    requires StillEnabled(Replay(svc, actions).rows, |Replay(svc, actions[..n]).rows|)
    ensures Step(svc, Replay(svc, actions), again)
         == (Replay(svc, actions), Step(svc, Replay(svc, actions[..n]), actions[n].call).1)
    ensures !FallsThrough(svc, Replay(svc, actions), again)
  {
    ReplayOneMore(svc, actions, n);
    RowsOnlyGrow(svc, actions, n + 1);
    LearnedOnceForGood(svc, Replay(svc, actions[..n]), actions[n].call, Replay(svc, actions), again);
  }

  // --------------------------------------------------------------- rate bounds

  /** Calls of the suggester among actions `from` and later; for one TLD, or for all. */
  function AskedFrom(svc: Service, actions: seq<Action>, from: nat, tld: Option<string>): nat
    requires svc.Valid()
  {
    if |actions| <= from then 0
    else
      var before, a := actions[..|actions| - 1], actions[|actions| - 1];
      AskedFrom(svc, before, from, tld)
      + if a.ParseText? && Asks(svc, Replay(svc, before), a.call)
           && (tld.None? || tld.value == Names.Tld(a.call.domain)) then 1 else 0
  }

  lemma {:induction false} PassKeepsLimiters(svc: Service, w: World, listed: Rows, p: Pass)
    ensures PassOver(svc, w, listed, p).hostCalls == w.hostCalls && PassOver(svc, w, listed, p).tldCalls == w.tldCalls
  {
    if listed != [] {
      PassKeepsLimiters(svc, w, listed[..|listed| - 1], p);
    }
  }

  lemma LearningKeepsLimiters(svc: Service, w: World, c: ParseCall)
    ensures Learn(svc, w, c).0.hostCalls == w.hostCalls && Learn(svc, w, c).0.tldCalls == w.tldCalls
  {
  }

  /** What one parse does to the limiters' histories. */
  lemma ParseOnLimiters(svc: Service, w: World, c: ParseCall)
    requires svc.Valid()
    ensures Step(svc, w, c).0.hostCalls == if FallsThrough(svc, w, c) then HostCalls(svc, w, c) else w.hostCalls
    ensures Step(svc, w, c).0.tldCalls
         == if FallsThrough(svc, w, c) && HostGrants(svc, w, c) then TldCalls(svc, w, c) else w.tldCalls
  {
    LearningKeepsLimiters(svc, w.(hostCalls := HostCalls(svc, w, c), tldCalls := TldCalls(svc, w, c)), c);
  }

  /** Calls among actions `from` and later that the host limiter let through and the TLD limiter refused. */
  function RefusedFrom(svc: Service, actions: seq<Action>, from: nat): nat
    requires svc.Valid()
  {
    if |actions| <= from then 0
    else
      var before, a := actions[..|actions| - 1], actions[|actions| - 1];
      RefusedFrom(svc, before, from) + One(a.ParseText? && RefusedByTld(svc, Replay(svc, before), a.call))
  }

  predicate RefusedByTld(svc: Service, w: World, c: ParseCall)
    requires svc.Valid()
  {
    FallsThrough(svc, w, c) && HostGrants(svc, w, c) && !TldGrants(svc, w, c)
  }

  lemma OnLimiters(svc: Service, w: World, a: Action)
    requires svc.Valid()
    ensures Apply(svc, w, a).hostCalls
         == if a.ParseText? && FallsThrough(svc, w, a.call) then HostCalls(svc, w, a.call) else w.hostCalls
    ensures Apply(svc, w, a).tldCalls
         == if a.ParseText? && FallsThrough(svc, w, a.call) && HostGrants(svc, w, a.call)
            then TldCalls(svc, w, a.call) else w.tldCalls
  {
    if a.RunPass? {
      PassKeepsLimiters(svc, w, Enabled(w.rows), a.pass);
    } else {
      ParseOnLimiters(svc, w, a.call);
    }
  }

  lemma GrantedOneMore(l: TokenBucket.Limits, calls: seq<TokenBucket.Call>, call: TokenBucket.Call, key: string,
      from: nat)
    requires l.Valid() && from <= |calls|
    ensures TokenBucket.GrantedFrom(l, calls + [call], key, from)
         == TokenBucket.GrantedFrom(l, calls, key, from)
             + One(call.key == key && TokenBucket.Granted(l, calls + [call]))
  {
    assert (calls + [call])[..|calls + [call]| - 1] == calls;
  }

  lemma HostOneAction(svc: Service, w: World, a: Action, from: nat)
    requires svc.Valid() && svc.hostLimits.Some? && from <= |w.hostCalls|
    ensures |w.hostCalls| <= |Apply(svc, w, a).hostCalls|
    ensures TokenBucket.GrantedFrom(svc.hostLimits.value, Apply(svc, w, a).hostCalls, svc.host, from)
         == TokenBucket.GrantedFrom(svc.hostLimits.value, w.hostCalls, svc.host, from)
            + One(a.ParseText? && Asks(svc, w, a.call)) + One(a.ParseText? && RefusedByTld(svc, w, a.call))
  {
    OnLimiters(svc, w, a);
    if a.ParseText? {
      GrantedOneMore(svc.hostLimits.value, w.hostCalls, TokenBucket.Call(svc.host, a.call.hostNow), svc.host, from);
    }
  }

  lemma TldOneAction(svc: Service, w: World, a: Action, tld: string, from: nat)
    requires svc.Valid() && svc.tldLimits.Some? && from <= |w.tldCalls|
    ensures |w.tldCalls| <= |Apply(svc, w, a).tldCalls|
    ensures TokenBucket.GrantedFrom(svc.tldLimits.value, Apply(svc, w, a).tldCalls, tld, from)
         == TokenBucket.GrantedFrom(svc.tldLimits.value, w.tldCalls, tld, from)
            + One(a.ParseText? && Asks(svc, w, a.call) && tld == Names.Tld(a.call.domain))
  {
    OnLimiters(svc, w, a);
    if a.ParseText? {
      GrantedOneMore(svc.tldLimits.value, w.tldCalls, TokenBucket.Call(Names.Tld(a.call.domain), a.call.tldNow), tld,
          from);
    }
  }

  /**
   Every host token is accounted for: in any part of a run the grants of the host limiter are the calls of
   the suggester and the calls that the TLD limiter refused, whose host token is spent all the same.
   */
  lemma {:induction false} HostTokensAreAccounted(svc: Service, actions: seq<Action>, from: nat)
    requires svc.Valid() && svc.hostLimits.Some? && from <= |actions|
    ensures |Replay(svc, actions[..from]).hostCalls| <= |Replay(svc, actions).hostCalls|
    ensures TokenBucket.GrantedFrom(svc.hostLimits.value, Replay(svc, actions).hostCalls, svc.host,
                                    |Replay(svc, actions[..from]).hostCalls|)
         == AskedFrom(svc, actions, from, None) + RefusedFrom(svc, actions, from)
    decreases |actions|
  {
    if from == |actions| {
      assert actions[..from] == actions;
    } else {
      var before, a := actions[..|actions| - 1], actions[|actions| - 1];
      assert before[..from] == actions[..from];
      HostTokensAreAccounted(svc, before, from);
      HostOneAction(svc, Replay(svc, before), a, |Replay(svc, actions[..from]).hostCalls|);
    }
  }

  lemma {:induction false} TldTokensAreAccounted(svc: Service, actions: seq<Action>, from: nat, tld: string)
    requires svc.Valid() && svc.tldLimits.Some? && from <= |actions|
    ensures |Replay(svc, actions[..from]).tldCalls| <= |Replay(svc, actions).tldCalls|
    ensures AskedFrom(svc, actions, from, Some(tld))
         == TokenBucket.GrantedFrom(svc.tldLimits.value, Replay(svc, actions).tldCalls, tld,
                                    |Replay(svc, actions[..from]).tldCalls|)
    decreases |actions|
  {
    if from == |actions| {
      assert actions[..from] == actions;
    } else {
      var before, a := actions[..|actions| - 1], actions[|actions| - 1];
      assert before[..from] == actions[..from];
      TldTokensAreAccounted(svc, before, from, tld);
      TldOneAction(svc, Replay(svc, before), a, tld, |Replay(svc, actions[..from]).tldCalls|);
    }
  }

  /** The clock readings of a history from position `from` on lie in the interval, and none is later. */
  ghost predicate Within(calls: seq<TokenBucket.Call>, from: nat, start: Instant, end: Instant) {
    && start <= end && from <= |calls|
    && (forall k :: from <= k < |calls| ==> start <= calls[k].now)
    && (forall k :: 0 <= k < |calls| ==> calls[k].now <= end)
  }

  lemma AskedWithinGranted(svc: Service, actions: seq<Action>, from: nat)
    requires svc.Valid() && svc.hostLimits.Some? && from <= |actions|
    ensures |Replay(svc, actions[..from]).hostCalls| <= |Replay(svc, actions).hostCalls|
    ensures AskedFrom(svc, actions, from, None)
         <= TokenBucket.GrantedFrom(svc.hostLimits.value, Replay(svc, actions).hostCalls, svc.host,
                                    |Replay(svc, actions[..from]).hostCalls|)
  {
    HostTokensAreAccounted(svc, actions, from);
  }

  /** With the host limiter wired, the suggester calls of an interval fit its rate. */
  lemma HostBound(svc: Service, actions: seq<Action>, from: nat, start: Instant, end: Instant)
    requires svc.Valid() && svc.hostLimits.Some? && from <= |actions|
    requires Within(Replay(svc, actions).hostCalls, |Replay(svc, actions[..from]).hostCalls|, start, end)
    ensures svc.hostLimits.value.Fits(AskedFrom(svc, actions, from, None), end - start)
  {
    var calls, n := Replay(svc, actions).hostCalls, |Replay(svc, actions[..from]).hostCalls|;
    AskedWithinGranted(svc, actions, from);
    TokenBucket.FewerWithinInterval(svc.hostLimits.value, calls, svc.host, n, start, end,
                                    AskedFrom(svc, actions, from, None));
  }

  /** With the TLD limiter wired, those of one TLD fit its rate. */
  lemma TldBound(svc: Service, actions: seq<Action>, from: nat, tld: string, start: Instant, end: Instant)
    requires svc.Valid() && svc.tldLimits.Some? && from <= |actions|
    requires Within(Replay(svc, actions).tldCalls, |Replay(svc, actions[..from]).tldCalls|, start, end)
    ensures svc.tldLimits.value.Fits(AskedFrom(svc, actions, from, Some(tld)), end - start)
  {
    var calls, n := Replay(svc, actions).tldCalls, |Replay(svc, actions[..from]).tldCalls|;
    TldTokensAreAccounted(svc, actions, from, tld);
    TokenBucket.FewerWithinInterval(svc.tldLimits.value, calls, tld, n, start, end,
                                    AskedFrom(svc, actions, from, Some(tld)));
  }

  /** Rules of one TLD, or all. */
  function OfTld(tld: Option<string>): LearnedRule -> bool {
    (row: LearnedRule) => tld.None? || row.rule.tld == tld.value
  }

  function Learned(w: World, tld: Option<string>): nat { CountIf(w.rows, OfTld(tld)) }

  /** Suggested rules are for the TLD of the domain. */
  predicate RightTld(a: Action) {
    a.ParseText? && a.call.suggestion.Some? ==> a.call.suggestion.value.tld == Names.Tld(a.call.domain)
  }

  lemma {:induction false} SameRulesSameCount(before: Rows, after: Rows, tld: Option<string>)
    requires |after| == |before| && Extends(before, after)
    ensures CountIf(after, OfTld(tld)) == CountIf(before, OfTld(tld))
  {
    if before != [] {
      SameRulesSameCount(before[..|before| - 1], after[..|before| - 1], tld);
    }
  }

  lemma OneActionLearnsOne(svc: Service, w: World, a: Action, tld: Option<string>)
    requires svc.Valid() && Ledger(w) && (tld.Some? ==> RightTld(a))
    ensures Learned(Apply(svc, w, a), tld)
         <= Learned(w, tld) + One(a.ParseText? && Asks(svc, w, a.call)
             && (tld.None? || tld.value == Names.Tld(a.call.domain)))
  {
    if a.RunPass? {
      EnabledLists(w.rows);
      PassKeepsLedger(svc, w, Enabled(w.rows), a.pass);
      SameRulesSameCount(w.rows, Apply(svc, w, a).rows, tld);
    } else {
      ParseAddsOne(svc, w, a.call);
      if a.call.suggestion.Some? {
        CountAppendOne(w.rows, NewRow(w.rows, a.call.suggestion.value, a.call.raw, a.call.domain, svc.suggesterId,
                                      svc.pipelineVersion), OfTld(tld));
      }
    }
  }

  /**
   No more rules are learned in any part of a run than the suggester was asked for, and none of a TLD
   without a question for that TLD.
   */
  lemma {:induction false} LearnedWithinAsked(svc: Service, actions: seq<Action>, from: nat, tld: Option<string>)
    requires svc.Valid() && from <= |actions|
    requires tld.Some? ==> forall k :: 0 <= k < |actions| ==> RightTld(actions[k])
    ensures Learned(Replay(svc, actions), tld)
         <= Learned(Replay(svc, actions[..from]), tld) + AskedFrom(svc, actions, from, tld)
    decreases |actions|
  {
    if from == |actions| {
      assert actions[..from] == actions;
    } else {
      var before, a := actions[..|actions| - 1], actions[|actions| - 1];
      assert before[..from] == actions[..from];
      LearnedWithinAsked(svc, before, from, tld);
      RunsKeepLedger(svc, before);
      OneActionLearnsOne(svc, Replay(svc, before), a, tld);
    }
  }

  /** What was learned is not forgotten. */
  lemma LearnedGrows(svc: Service, actions: seq<Action>, from: nat, tld: Option<string>)
    requires svc.Valid() && from <= |actions|
    ensures Learned(Replay(svc, actions[..from]), tld) <= Learned(Replay(svc, actions), tld)
  {
    var before, after := Replay(svc, actions[..from]).rows, Replay(svc, actions).rows;
    RowsOnlyGrow(svc, actions, from);
    assert after == after[..|before|] + after[|before|..];
    CountIfAppend(after[..|before|], after[|before|..], OfTld(tld));
    SameRulesSameCount(before, after[..|before|], tld);
  }

  /** How many rules a part of a run has learned. */
  function LearnedFrom(svc: Service, actions: seq<Action>, from: nat, tld: Option<string>): nat
    requires svc.Valid() && from <= |actions|
  {
    LearnedGrows(svc, actions, from, tld);
    Learned(Replay(svc, actions), tld) - Learned(Replay(svc, actions[..from]), tld)
  }

  /** So the rules learned in an interval fit the host's rate, */
  lemma LearnedWithinHostBound(svc: Service, actions: seq<Action>, from: nat, start: Instant, end: Instant)
    requires svc.Valid() && svc.hostLimits.Some? && from <= |actions|
    requires Within(Replay(svc, actions).hostCalls, |Replay(svc, actions[..from]).hostCalls|, start, end)
    ensures svc.hostLimits.value.Fits(LearnedFrom(svc, actions, from, None), end - start)
  {
    var calls, n := Replay(svc, actions).hostCalls, |Replay(svc, actions[..from]).hostCalls|;
    LearnedWithinAsked(svc, actions, from, None);
    AskedWithinGranted(svc, actions, from);
    TokenBucket.FewerWithinInterval(svc.hostLimits.value, calls, svc.host, n, start, end,
                                    LearnedFrom(svc, actions, from, None));
  }

  /** and those of one TLD the TLD's rate. */
  lemma LearnedWithinTldBound(svc: Service, actions: seq<Action>, from: nat, tld: string, start: Instant, end: Instant)
    requires svc.Valid() && svc.tldLimits.Some? && from <= |actions|
    requires forall k :: 0 <= k < |actions| ==> RightTld(actions[k])
    requires Within(Replay(svc, actions).tldCalls, |Replay(svc, actions[..from]).tldCalls|, start, end)
    ensures svc.tldLimits.value.Fits(LearnedFrom(svc, actions, from, Some(tld)), end - start)
  {
    var calls, n := Replay(svc, actions).tldCalls, |Replay(svc, actions[..from]).tldCalls|;
    LearnedWithinAsked(svc, actions, from, Some(tld));
    TldTokensAreAccounted(svc, actions, from, tld);
    TokenBucket.FewerWithinInterval(svc.tldLimits.value, calls, tld, n, start, end,
                                    LearnedFrom(svc, actions, from, Some(tld)));
  }

  // ------------------------------------------------------------------ objects

  class RevalidationService {
    const svc: Service
    const repo: MemoryLearnedRulesRepo
    const pipeline: Pipeline
    const publisher: EventLog<Event>

    constructor (svc: Service, repo: MemoryLearnedRulesRepo, pipeline: Pipeline, publisher: EventLog<Event>)
      ensures this.svc == svc && this.repo == repo && this.pipeline == pipeline && this.publisher == publisher
    {
      this.svc := svc;
      this.repo := repo;
      this.pipeline := pipeline;
      this.publisher := publisher;
    }

    ghost predicate Valid()
      reads repo, pipeline
    {
      repo.Valid() && pipeline.settings == svc.settings && pipeline.en == svc.en
    }

    /** The part of the state that a pass can change; the limiters play no role in it. */
    ghost function State(): World
      reads repo, pipeline, publisher
    {
      World(repo.rows, [], [], pipeline.cache, publisher.events)
    }

    method Revalidate(row: LearnedRule, v: Visit)
      requires Valid()
      modifies repo, pipeline, publisher
      ensures Valid() && State() == Visited(svc, old(State()), row, v)
    {
      if v.raw.None? {
        return;
      }
      var verdict := pipeline.Validate(ValidationCall(row.rule, v.raw.value, row.sampleDomain, v.now4, v.now5),
          v.fetch);
      match verdict {
        case Transient =>
        case Rejected(_) =>
          var known := repo.Disable(row.id);
          if known {
            publisher.Publish(RuleInvalidated(row.id));
          }
        case Accepted(_) =>
          var known := repo.MarkRevalidated(row.id, v.at);
          if known {
            publisher.Publish(RuleRevalidated(row.id));
          }
      }
    }

    method RunOnce(p: Pass)
      requires Valid()
      modifies repo, pipeline, publisher
      ensures Valid() && State() == AfterPass(svc, old(State()), p)
    {
      var rows := repo.ListEnabled();
      for k := 0 to |rows|
        invariant Valid()
        invariant State() == PassOver(svc, old(State()), rows[..k], p)
      {
        assert rows[..k + 1][..k] == rows[..k];
        if Due(svc, rows[k], p.now) {
          Revalidate(rows[k], p.visits(rows[k].id));
        }
      }
      assert rows[..|rows|] == rows;
    }
  }
}
