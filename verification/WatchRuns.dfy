/**
 Whole runs of the watcher: domains are added, removed and checked, and delivery tasks of any number
 of domains interleave. Two mechanisms guard the alerts: the policy suppresses thresholds that the
 previous check already saw crossed, and the store suppresses keys that were already sent. The first
 one alone repeats alerts, the second one alone would not decide when to alert; the theorems say what
 they achieve together.
 */
module WatchRuns {
  import opened Common
  import opened Monitoring
  import opened NotificationPolicies
  import opened RetryPolicies
  import opened CheckDomain
  import opened Delivery
  import opened Text

  /** The collaborators that stay fixed during a run, and the clock at its start. */
  datatype Wiring = Wiring(retry: RetryPolicy, checkers: set<string>, notifiers: set<string>,
                           cycleId: Instant -> string, startedAt: Instant)

  /** The arguments of `ensure_watching`. */
  datatype Watched = Watched(name: string, cron: string, checkerId: string, thresholds: seq<nat>,
                             channels: seq<string>, metadata: map<string, string>)

  /**
   One check: how the checker answers each attempt, the clock when the result is stored, the clock
   when the alerts are computed, and what the channel resolver returns (`None` when it raises).
   */
  datatype CheckCall = CheckCall(name: string, outcomes: nat -> Attempt, storedAt: Instant,
                                 dispatchedAt: Instant, resolved: Option<seq<Channel>>)

  datatype Action =
    | EnsureWatching(watched: Watched)
    | RemoveWatching(name: string)
    | CheckNow(call: CheckCall)
    | TaskStep(step: Step)

  /** `clocks` has, for each domain, the instant at which its latest check was dispatched. */
  datatype Watch = Watch(repo: map<string, MonitoredDomain>, pool: Pool, clocks: map<string, Instant>)

  const INITIALLY := Watch(map[], Pool([], map[], [], []), map[])

  /** What a check of this domain may not start before. */
  function ClockOf(w: Wiring, s: Watch, name: string): Instant {
    if name in s.clocks then s.clocks[name] else w.startedAt
  }

  // -------------------------------------------------------------- transitions

  /** The ids that the given texts stand for. */
  function ChannelIds(texts: seq<string>): (ids: seq<string>)
    ensures |ids| == |texts|
  {
    seq(|texts|, i requires 0 <= i < |texts| => Strip(texts[i]))
  }

  function RowFor(watched: Watched, existing: Option<MonitoredDomain>): MonitoredDomain {
    MonitoredDomain(watched.name, watched.cron, watched.checkerId, watched.thresholds, ChannelIds(watched.channels),
                    if existing.Some? then existing.value.lastCheck else None, watched.metadata)
  }

  /**
   `ensure_watching` raises, changing nothing, for an unknown checker, a blank channel id, a cron that
   has not five fields, or an invalid row.
   */
  predicate Accepts(w: Wiring, s: Watch, watched: Watched) {
    && watched.checkerId in w.checkers
    && (forall id :: id in ChannelIds(watched.channels) ==> id != [])
    && IsSchedule(watched.cron)
    && RowFor(watched, Lookup(s.repo, watched.name)).Valid()
  }

  /** The row a check finds, if it gets as far as calling the checker. */
  predicate Checkable(w: Wiring, s: Watch, name: string) {
    name in s.repo && s.repo[name].checkerId in w.checkers
  }

  function EndingOf(w: Wiring, s: Watch, c: CheckCall): Ending
    requires w.retry.Valid() && Checkable(w, s, c.name)
  {
    Checked(w.retry, s.repo[c.name], c.outcomes, c.storedAt)
  }

  /** The alerts of a check: the policy sees the row as it was before the check. */
  function AlertsOf(w: Wiring, s: Watch, c: CheckCall): seq<Alert>
    requires w.retry.Valid() && Checkable(w, s, c.name)
  {
    var reply := EndingOf(w, s, c).reply;
    if !reply.Answer? then []
    else Alerts(w.cycleId, s.repo[c.name].thresholds, s.repo[c.name].lastCheck, reply.result, c.dispatchedAt)
  }

  function TasksFor(w: Wiring, s: Watch, c: CheckCall): seq<Task>
    requires w.retry.Valid() && Checkable(w, s, c.name)
  {
    if c.resolved.None? then [] else TaskList(AlertsOf(w, s, c), c.resolved.value, w.notifiers)
  }

  /** How `check_now` ends: as the check does, unless there are alerts and the channel resolver raises. */
  datatype Response = Finished(reply: Reply) | ResolverRaised

  function ResponseTo(w: Wiring, s: Watch, c: CheckCall): Response
    requires w.retry.Valid()
  {
    if c.name !in s.repo then Finished(NotMonitored)
    else if s.repo[c.name].checkerId !in w.checkers then Finished(NoChecker)
    else if AlertsOf(w, s, c) != [] && c.resolved.None? then ResolverRaised
    else Finished(EndingOf(w, s, c).reply)
  }

  function WithTasks(pool: Pool, tasks: seq<Task>, event: Option<Event>): Pool {
    pool.(tasks := pool.tasks + tasks, events := pool.events + if event.Some? then [event.value] else [])
  }

  function AfterCheck(w: Wiring, s: Watch, c: CheckCall): Watch
    requires w.retry.Valid()
  {
    if !Checkable(w, s, c.name) then s
    else
      var ending := EndingOf(w, s, c);
      Watch(
        if ending.stored.Some? then s.repo[c.name := ending.stored.value] else s.repo,
        WithTasks(s.pool, TasksFor(w, s, c), ending.event),
        s.clocks[c.name := c.dispatchedAt])
  }

  function Apply(w: Wiring, s: Watch, a: Action): Watch
    requires w.retry.Valid()
  {
    match a
    case EnsureWatching(d) =>
      if Accepts(w, s, d) then s.(repo := s.repo[d.name := RowFor(d, Lookup(s.repo, d.name))]) else s
    case RemoveWatching(name) => s.(repo := s.repo - {name})
    case CheckNow(c) => AfterCheck(w, s, c)
    case TaskStep(step) => s.(pool := Advance(w.retry, s.pool, step))
  }

  function Replay(w: Wiring, actions: seq<Action>): Watch
    requires w.retry.Valid()
  {
    if actions == [] then INITIALLY
    else Apply(w, Replay(w, actions[..|actions| - 1]), actions[|actions| - 1])
  }

  // ------------------------------------------------------------------ legality

  predicate Idle(pool: Pool, name: string) {
    forall i :: 0 <= i < |pool.tasks| ==> pool.tasks[i].key.domain == name ==> !Live(pool.tasks[i])
  }

  /**
   Checks of one domain are serialized and the clock does not step back between them, a checker answers
   for the domain it was asked about, and no two resolved channels with a known notifier share an id.
   Checks of different domains may overlap in time.
   */
  ghost predicate LegalCheck(w: Wiring, s: Watch, c: CheckCall) {
    && Idle(s.pool, c.name)
    && ClockOf(w, s, c.name) <= c.storedAt <= c.dispatchedAt
    && (forall k: nat ::
          c.outcomes(k).Returned? ==> c.outcomes(k).result.domain == c.name && c.outcomes(k).result.Valid())
    && (c.resolved.Some? ==> DistinctIds(c.resolved.value, w.notifiers))
  }

  ghost predicate LegalRun(w: Wiring, actions: seq<Action>) {
    w.retry.Valid() &&
    (actions != [] ==>
      && LegalRun(w, actions[..|actions| - 1])
      && var last := actions[|actions| - 1];
         last.CheckNow? ==> LegalCheck(w, Replay(w, actions[..|actions| - 1]), last.call))
  }

  lemma ReplayOneMore(w: Wiring, actions: seq<Action>, a: Action)
    requires LegalRun(w, actions)
    requires a.CheckNow? ==> LegalCheck(w, Replay(w, actions), a.call)
    ensures LegalRun(w, actions + [a])
    ensures Replay(w, actions + [a]) == Apply(w, Replay(w, actions), a)
  {
    assert (actions + [a])[..|actions + [a]| - 1] == actions;
  }

  // ------------------------------------------------------- nothing is sent twice

  ghost predicate Guarded(pool: Pool, k: Key) {
    Balanced(pool, k) && Potential(pool, k) <= 1
  }

  lemma AlertsAreDistinct(w: Wiring, s: Watch, c: CheckCall)
    requires w.retry.Valid() && Checkable(w, s, c.name) && LegalCheck(w, s, c)
    requires Descending(s.repo[c.name].thresholds)
    ensures DistinctThresholds(AlertsOf(w, s, c))
    ensures forall a :: 0 <= a < |AlertsOf(w, s, c)| ==> AlertsOf(w, s, c)[a].domain == c.name
  {
    var reply := EndingOf(w, s, c).reply;
    if reply.Answer? && reply.result.expiresAt.Some? {
      var e := reply.result.expiresAt.value;
      FiringDescends(s.repo[c.name].thresholds, e, Stamp(s.repo[c.name].lastCheck, e), c.dispatchedAt);
    }
  }

  /** New tasks at their start, and an event that is no announcement, disturb no balance. */
  lemma NewTasksKeepBalance(pool: Pool, tasks: seq<Task>, event: Option<Event>, k: Key)
    requires Balanced(pool, k)
    requires forall i :: 0 <= i < |tasks| ==> tasks[i].pc == Start
    requires event.Some? ==> !event.value.NotificationDispatched?
    ensures Balanced(WithTasks(pool, tasks, event), k)
  {
    CountIfAppend(pool.tasks, tasks, Awaits(k, Recording));
    CountIfAppend(pool.tasks, tasks, Awaits(k, Announcing));
    CountNothing(tasks, Awaits(k, Recording));
    CountNothing(tasks, Awaits(k, Announcing));
    if event.Some? {
      CountAppendOne(pool.events, event.value, IsDispatchOf(k));
    } else {
      assert pool.events + [] == pool.events;
    }
  }

  lemma NeverSentYet(pool: Pool, tasks: seq<Task>, k: Key)
    requires Balanced(pool, k) && Idle(pool, k.domain)
    requires forall i :: 0 <= i < |tasks| ==> tasks[i].pc == Start
    requires CountIf(tasks, Contends(k, pool.fired)) > 0
    ensures Potential(pool, k) == 0
  {
    CountIfPositive(tasks, Contends(k, pool.fired));
    var i :| 0 <= i < |tasks| && Contends(k, pool.fired)(tasks[i]);
    assert k !in pool.fired;
    QuietBalance(pool, k);
    CountNothing(pool.tasks, Contends(k, pool.fired));
  }

  /** A new contender for a key of an idle domain meets no other one and no earlier send. */
  lemma NewTasksKeepPotential(pool: Pool, tasks: seq<Task>, event: Option<Event>, k: Key)
    requires Guarded(pool, k)
    requires forall i :: 0 <= i < |tasks| ==> tasks[i].pc == Start
    requires CountIf(tasks, Contends(k, pool.fired)) <= 1
    requires CountIf(tasks, Contends(k, pool.fired)) > 0 ==> Idle(pool, k.domain)
    ensures Potential(WithTasks(pool, tasks, event), k) <= 1
  {
    CountIfAppend(pool.tasks, tasks, Contends(k, pool.fired));
    if CountIf(tasks, Contends(k, pool.fired)) > 0 {
      NeverSentYet(pool, tasks, k);
    }
  }

  /** What a check adds: fresh tasks, at most one contender per key, and none for other domains. */
  lemma NewTasksOfCheck(w: Wiring, s: Watch, c: CheckCall, k: Key)
    requires w.retry.Valid() && Checkable(w, s, c.name) && LegalCheck(w, s, c)
    requires Descending(s.repo[c.name].thresholds)
    ensures forall i :: 0 <= i < |TasksFor(w, s, c)| ==> TasksFor(w, s, c)[i].pc == Start
    ensures CountIf(TasksFor(w, s, c), Contends(k, s.pool.fired)) <= 1
    ensures CountIf(TasksFor(w, s, c), Contends(k, s.pool.fired)) > 0 ==> Idle(s.pool, k.domain)
  {
    AlertsAreDistinct(w, s, c);
    if c.resolved.Some? {
      TaskListShape(AlertsOf(w, s, c), c.resolved.value, w.notifiers);
      OneTaskPerKey(AlertsOf(w, s, c), c.resolved.value, w.notifiers, k, s.pool.fired);
    }
    CountIfPositive(TasksFor(w, s, c), Contends(k, s.pool.fired));
  }

  lemma CheckKeepsGuard(w: Wiring, s: Watch, c: CheckCall, k: Key)
    requires w.retry.Valid() && Checkable(w, s, c.name) && LegalCheck(w, s, c)
    requires Descending(s.repo[c.name].thresholds) && Guarded(s.pool, k)
    ensures Guarded(AfterCheck(w, s, c).pool, k)
  {
    NewTasksOfCheck(w, s, c, k);
    NewTasksKeepBalance(s.pool, TasksFor(w, s, c), EndingOf(w, s, c).event, k);
    NewTasksKeepPotential(s.pool, TasksFor(w, s, c), EndingOf(w, s, c).event, k);
  }

  ghost predicate RowsValid(s: Watch) {
    forall n :: n in s.repo ==> s.repo[n].Valid() && s.repo[n].name == n
  }

  lemma {:induction false} RowsStayValid(w: Wiring, actions: seq<Action>)
    requires LegalRun(w, actions)
    ensures RowsValid(Replay(w, actions))
  {
    if actions != [] {
      RowsStayValid(w, actions[..|actions| - 1]);
    }
  }

  lemma {:induction false} RunKeepsGuard(w: Wiring, actions: seq<Action>, k: Key)
    requires LegalRun(w, actions)
    ensures Guarded(Replay(w, actions).pool, k)
  {
    if actions != [] {
      var before, a := actions[..|actions| - 1], actions[|actions| - 1];
      var s := Replay(w, before);
      RunKeepsGuard(w, before, k);
      RowsStayValid(w, before);
      match a
      case CheckNow(c) =>
        if Checkable(w, s, c.name) {
          CheckKeepsGuard(w, s, c, k);
        }
      case TaskStep(step) =>
        BalanceKept(w.retry, s.pool, step, k);
        PotentialNeverGrows(w.retry, s.pool, step, k);
      case _ =>
    }
  }

  /**
   Over any run (renewals, expiries that flip back, removals and re-adds included) and any
   interleaving of the delivery tasks, a key is sent at most once and announced at most once.
   */
  lemma SentAtMostOnce(w: Wiring, actions: seq<Action>, k: Key)
    requires LegalRun(w, actions)
    ensures Sends(Replay(w, actions).pool, k) <= 1
    ensures Dispatches(Replay(w, actions).pool, k) <= Sends(Replay(w, actions).pool, k)
  {
    RunKeepsGuard(w, actions, k);
  }

  /** Whenever a domain has no live task, the store's keys for it are exactly its announced keys. */
  lemma StoreMatchesEvents(w: Wiring, actions: seq<Action>, k: Key)
    requires LegalRun(w, actions) && Idle(Replay(w, actions).pool, k.domain)
    ensures var pool := Replay(w, actions).pool;
            && Dispatches(pool, k) == Sends(pool, k) == (if k in pool.fired then 1 else 0)
  {
    RunKeepsGuard(w, actions, k);
    QuietBalance(Replay(w, actions).pool, k);
  }

  // --------------------------------------------------------- nothing gets lost

  /** The expiry an action reports for `name`, if it is a check of it that ends OK. */
  function Reports(w: Wiring, s: Watch, a: Action, name: string): Option<Instant>
    requires w.retry.Valid()
  {
    if a.CheckNow? && a.call.name == name && Checkable(w, s, name)
       && EndingOf(w, s, a.call).reply.Answer? && EndingOf(w, s, a.call).reply.result.outcome == OK
    then EndingOf(w, s, a.call).reply.result.expiresAt else None
  }

  /** The action makes the policy emit an alert for this domain, expiry and threshold. */
  predicate Emits(w: Wiring, s: Watch, a: Action, name: string, e: Instant, t: nat)
    requires w.retry.Valid()
  {
    && Reports(w, s, a, name) == Some(e)
    && t in Firing(s.repo[name].thresholds, e, Stamp(s.repo[name].lastCheck, e), a.call.dispatchedAt)
  }

  /** Some action of the run emitted that alert. */
  predicate Emitted(w: Wiring, actions: seq<Action>, name: string, e: Instant, t: nat)
    requires w.retry.Valid()
  {
    actions != [] &&
    (Emitted(w, actions[..|actions| - 1], name, e, t)
     || Emits(w, Replay(w, actions[..|actions| - 1]), actions[|actions| - 1], name, e, t))
  }

  /** The dispatch instant of the latest OK check that reported this expiry. */
  function Reported(w: Wiring, actions: seq<Action>, name: string, e: Instant): Option<Instant>
    requires w.retry.Valid()
  {
    if actions == [] then None
    else
      var before, a := actions[..|actions| - 1], actions[|actions| - 1];
      if Reports(w, Replay(w, before), a, name) == Some(e) then Some(a.call.dispatchedAt)
      else Reported(w, before, name, e)
  }

  /** Whenever the domain is (re-)added or updated, it is with these thresholds. */
  predicate Fixed(actions: seq<Action>, name: string, thresholds: seq<nat>) {
    forall i :: 0 <= i < |actions| ==>
      actions[i].EnsureWatching? && actions[i].watched.name == name ==> actions[i].watched.thresholds == thresholds
  }

  /** `Emits` speaks of the alerts that the dispatch really receives. */
  lemma EmitsIsAlert(w: Wiring, s: Watch, c: CheckCall, e: Instant, t: nat)
    requires w.retry.Valid() && Checkable(w, s, c.name) && LegalCheck(w, s, c)
    ensures Emits(w, s, CheckNow(c), c.name, e, t)
       <==> exists i :: 0 <= i < |AlertsOf(w, s, c)|
                     && AlertsOf(w, s, c)[i] == AlertOf(w.cycleId, c.name, e, t)
  {
    var reply := EndingOf(w, s, c).reply;
    if reply.Answer? && reply.result.outcome == OK {
      var expiry := reply.result.expiresAt.value;
      var fired := Firing(s.repo[c.name].thresholds, expiry, Stamp(s.repo[c.name].lastCheck, expiry), c.dispatchedAt);
      var alerts := AlertsOf(w, s, c);
      assert |alerts| == |fired|
          && forall i :: 0 <= i < |fired| ==> alerts[i] == AlertOf(w.cycleId, c.name, expiry, fired[i]);
      if e == expiry && t in fired {
        var i :| 0 <= i < |fired| && fired[i] == t;
        assert alerts[i] == AlertOf(w.cycleId, c.name, e, t);
      }
    }
  }

  /** The row has these thresholds, and its last check is no later than the last report of that expiry. */
  ghost predicate RowAnchored(row: MonitoredDomain, thresholds: seq<nat>, reported: Instant -> Option<Instant>) {
    && row.thresholds == thresholds
    && (row.lastCheck.Some? ==>
          && row.lastCheck.value.expiresAt.Some?
          && var seen := reported(row.lastCheck.value.expiresAt.value);
             seen.Some? && row.lastCheck.value.at <= seen.value)
  }

  function ReportedOver(w: Wiring, actions: seq<Action>, name: string): Instant -> Option<Instant>
    requires w.retry.Valid()
  {
    e => Reported(w, actions, name, e)
  }

  /** What the row of the domain remembers about its last check. */
  ghost predicate Anchored(w: Wiring, actions: seq<Action>, name: string, thresholds: seq<nat>)
    requires w.retry.Valid()
  {
    var s := Replay(w, actions);
    name in s.repo ==> RowAnchored(s.repo[name], thresholds, ReportedOver(w, actions, name))
  }

  /** What one action does to the row of a domain. */
  lemma RowAfter(w: Wiring, s: Watch, a: Action, name: string)
    requires w.retry.Valid() && RowsValid(s) && (a.CheckNow? ==> LegalCheck(w, s, a.call))
    requires name in Apply(w, s, a).repo
    ensures var row, report := Apply(w, s, a).repo[name], Reports(w, s, a, name);
            if report.Some? then
              && name in s.repo && row.thresholds == s.repo[name].thresholds
              && row.lastCheck == Some(LastCheck(a.call.storedAt, OK, report))
            else if a.EnsureWatching? && a.watched.name == name && Accepts(w, s, a.watched) then
              row == RowFor(a.watched, Lookup(s.repo, name))
            else name in s.repo && row == s.repo[name]
  {
  }

  lemma {:induction false} RowIsAnchored(w: Wiring, actions: seq<Action>, name: string, thresholds: seq<nat>)
    requires LegalRun(w, actions) && Fixed(actions, name, thresholds)
    ensures Anchored(w, actions, name, thresholds)
  {
    if actions != [] {
      var before, a := actions[..|actions| - 1], actions[|actions| - 1];
      assert forall i :: 0 <= i < |before| ==> before[i] == actions[i];
      RowIsAnchored(w, before, name, thresholds);
      RowsStayValid(w, before);
      if name in Replay(w, actions).repo {
        RowAfter(w, Replay(w, before), a, name);
        assert a == actions[|actions| - 1];
      }
    }
  }

  lemma {:induction false} ReportedBeforeNow(w: Wiring, actions: seq<Action>, name: string, e: Instant)
    requires LegalRun(w, actions)
    ensures Reported(w, actions, name, e).Some?
            ==> Reported(w, actions, name, e).value <= ClockOf(w, Replay(w, actions), name)
  {
    if actions != [] {
      ReportedBeforeNow(w, actions[..|actions| - 1], name, e);
    }
  }

  /**
   With thresholds fixed, the alerts ever emitted for an expiry are exactly the thresholds crossed at
   the latest dispatch of an OK check that reported it. Nothing is lost, although each check
   suppresses by the earlier instant at which the previous result was stored; and this holds across
   failing checks, other expiries in between, removals and re-adds.
   */
  lemma {:induction false} EmittedIffCrossed(w: Wiring, actions: seq<Action>, name: string, thresholds: seq<nat>,
                                             e: Instant, t: nat)
    requires LegalRun(w, actions) && Fixed(actions, name, thresholds)
    ensures Emitted(w, actions, name, e, t) <==>
              var seen := Reported(w, actions, name, e);
              seen.Some? && t in thresholds && Crossed(e, t, seen.value)
  {
    if actions != [] {
      var before, a := actions[..|actions| - 1], actions[|actions| - 1];
      var s := Replay(w, before);
      assert forall i :: 0 <= i < |before| ==> before[i] == actions[i];
      EmittedIffCrossed(w, before, name, thresholds, e, t);
      RowIsAnchored(w, before, name, thresholds);
      ReportedBeforeNow(w, before, name, e);
      if Reports(w, s, a, name) == Some(e) {
        FiringIff(thresholds, e, Stamp(s.repo[name].lastCheck, e), a.call.dispatchedAt, t);
      }
    }
  }

  /**
   How the store covers the policy: a check right after one that reported the same expiry emits an
   alert a second time exactly when the threshold was crossed between the storing and the dispatching
   of that earlier check.
   */
  lemma RepeatsIffCrossedInBetween(w: Wiring, actions: seq<Action>, c: CheckCall, thresholds: seq<nat>, e: Instant,
      t: nat)
    requires LegalRun(w, actions) && Fixed(actions, c.name, thresholds)
    requires LegalCheck(w, Replay(w, actions), c)
    requires Reports(w, Replay(w, actions), CheckNow(c), c.name) == Some(e)
    requires Stamp(Replay(w, actions).repo[c.name].lastCheck, e).Some?
    ensures var s := Replay(w, actions);
            var stamp, seen := Stamp(s.repo[c.name].lastCheck, e), Reported(w, actions, c.name, e);
            seen.Some? &&
            (Emits(w, s, CheckNow(c), c.name, e, t) && Emitted(w, actions, c.name, e, t) <==>
             t in thresholds && stamp.value < e - t as real <= seen.value)
  {
    var s := Replay(w, actions);
    RowIsAnchored(w, actions, c.name, thresholds);
    ReportedBeforeNow(w, actions, c.name, e);
    EmittedIffCrossed(w, actions, c.name, thresholds, e, t);
    FiringIff(thresholds, e, Stamp(s.repo[c.name].lastCheck, e), c.dispatchedAt, t);
  }

  // ------------------------------------------------------------ renewals re-fire

  /** What was emitted was reported. */
  lemma {:induction false} EmittedIsReported(w: Wiring, actions: seq<Action>, name: string, e: Instant, t: nat)
    requires w.retry.Valid() && Emitted(w, actions, name, e, t)
    ensures Reported(w, actions, name, e).Some?
  {
    if Emitted(w, actions[..|actions| - 1], name, e, t) {
      EmittedIsReported(w, actions[..|actions| - 1], name, e, t);
    }
  }

  /** The key belongs to an alert that the policy has emitted. */
  ghost predicate Originates(w: Wiring, actions: seq<Action>, k: Key)
    requires w.retry.Valid()
  {
    exists e :: Emitted(w, actions, k.domain, e, k.threshold) && k.cycle == w.cycleId(e)
  }

  lemma OriginPersists(w: Wiring, actions: seq<Action>, k: Key)
    requires w.retry.Valid() && actions != [] && Originates(w, actions[..|actions| - 1], k)
    ensures Originates(w, actions, k)
  {
    var e :| Emitted(w, actions[..|actions| - 1], k.domain, e, k.threshold) && k.cycle == w.cycleId(e);
    assert Emitted(w, actions, k.domain, e, k.threshold);
  }

  /** The alerts of a check are for the expiry it reports, and each is emitted by it. */
  lemma AlertsAreEmitted(w: Wiring, s: Watch, c: CheckCall, a: nat)
    requires w.retry.Valid() && Checkable(w, s, c.name) && LegalCheck(w, s, c) && a < |AlertsOf(w, s, c)|
    ensures Reports(w, s, CheckNow(c), c.name).Some?
    ensures var e, alert := Reports(w, s, CheckNow(c), c.name).value, AlertsOf(w, s, c)[a];
            && alert.domain == c.name && alert.cycle == w.cycleId(e)
            && Emits(w, s, CheckNow(c), c.name, e, alert.threshold)
  {
    var e := Reports(w, s, CheckNow(c), c.name).value;
    var fired := Firing(s.repo[c.name].thresholds, e, Stamp(s.repo[c.name].lastCheck, e), c.dispatchedAt);
    assert AlertsOf(w, s, c)[a] == AlertOf(w.cycleId, c.name, e, fired[a]) && fired[a] in fired;
  }

  /** The tasks that a check creates are for alerts that it emits. */
  lemma NewTasksAreEmitted(w: Wiring, s: Watch, c: CheckCall, t: Task)
    requires w.retry.Valid() && Checkable(w, s, c.name) && LegalCheck(w, s, c) && t in TasksFor(w, s, c)
    ensures t.key.domain == c.name && Reports(w, s, CheckNow(c), c.name).Some?
    ensures var e := Reports(w, s, CheckNow(c), c.name).value;
            t.key.cycle == w.cycleId(e) && Emits(w, s, CheckNow(c), c.name, e, t.key.threshold)
  {
    var alerts := AlertsOf(w, s, c);
    TaskListShape(alerts, c.resolved.value, w.notifiers);
    var a :| 0 <= a < |alerts| && Delivers(t, alerts[a]);
    AlertsAreEmitted(w, s, c, a);
  }

  lemma NewTaskOriginates(w: Wiring, actions: seq<Action>, t: Task)
    requires LegalRun(w, actions) && actions != [] && actions[|actions| - 1].CheckNow?
    requires var s, c := Replay(w, actions[..|actions| - 1]), actions[|actions| - 1].call;
             Checkable(w, s, c.name) && t in TasksFor(w, s, c)
    ensures Originates(w, actions, t.key)
  {
    var s, c := Replay(w, actions[..|actions| - 1]), actions[|actions| - 1].call;
    NewTasksAreEmitted(w, s, c, t);
    assert Emitted(w, actions, t.key.domain, Reports(w, s, CheckNow(c), c.name).value, t.key.threshold);
  }

  lemma {:induction false} KeysOriginate(w: Wiring, actions: seq<Action>)
    requires LegalRun(w, actions)
    ensures forall t :: t in Replay(w, actions).pool.tasks ==> Originates(w, actions, t.key)
    ensures forall k :: k in Replay(w, actions).pool.fired ==> Originates(w, actions, k)
  {
    if actions != [] {
      var before, a := actions[..|actions| - 1], actions[|actions| - 1];
      var s, s' := Replay(w, before), Replay(w, actions);
      KeysOriginate(w, before);
      forall t | t in s'.pool.tasks
        ensures Originates(w, actions, t.key)
      {
        if u :| u in s.pool.tasks && u.key == t.key {
          OriginPersists(w, actions, t.key);
        } else {
          NewTaskOrOld(w, s, a, t);
          NewTaskOriginates(w, actions, t);
        }
      }
      forall k | k in s'.pool.fired
        ensures Originates(w, actions, k)
      {
        if k !in s.pool.fired {
          assert a.TaskStep? && s.pool.tasks[a.step.task] in s.pool.tasks;
        }
        OriginPersists(w, actions, k);
      }
    }
  }

  lemma NewTaskOrOld(w: Wiring, s: Watch, a: Action, t: Task)
    requires w.retry.Valid() && t in Apply(w, s, a).pool.tasks
    ensures (exists u :: u in s.pool.tasks && u.key == t.key)
            || (a.CheckNow? && Checkable(w, s, a.call.name) && t in TasksFor(w, s, a.call))
  {
    var i :| 0 <= i < |Apply(w, s, a).pool.tasks| && Apply(w, s, a).pool.tasks[i] == t;
    if i < |s.pool.tasks| {
      assert s.pool.tasks[i] in s.pool.tasks && s.pool.tasks[i].key == t.key;
    }
  }

  /** The hash tells this expiry from every other one that the domain has reported. */
  ghost predicate Separated(w: Wiring, actions: seq<Action>, name: string, e: Instant)
    requires w.retry.Valid()
  {
    forall x :: Reported(w, actions, name, x).Some? && w.cycleId(x) == w.cycleId(e) ==> x == e
  }

  /** No key of an expiry that was never reported is in the store. */
  lemma RenewalIsNotHeldBack(w: Wiring, actions: seq<Action>, name: string, e: Instant, t: nat, channel: string)
    requires LegalRun(w, actions) && Reported(w, actions, name, e).None? && Separated(w, actions, name, e)
    ensures Key(name, t, w.cycleId(e), channel) !in Replay(w, actions).pool.fired
  {
    var k := Key(name, t, w.cycleId(e), channel);
    KeysOriginate(w, actions);
    if k in Replay(w, actions).pool.fired {
      var x :| Emitted(w, actions, name, x, t) && k.cycle == w.cycleId(x);
      EmittedIsReported(w, actions, name, x, t);
      assert false;
    }
  }
}
