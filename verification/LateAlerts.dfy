/**
 Alerts that go missing at first: thresholds that are added after they were crossed, and keys whose
 delivery failed. The theorems say when a later check of the same expiry brings them up again.
 */
module LateAlerts {
  import opened Common
  import opened Monitoring
  import opened NotificationPolicies
  import opened CheckDomain
  import opened Delivery
  import opened WatchRuns
  import RetryPolicies

  // ------------------------------------------------------------ late thresholds

  /** The row's last check was OK with this expiry, and the threshold was crossed by then. */
  predicate Sealed(s: Watch, name: string, e: Instant, t: nat) {
    && name in s.repo
    && Stamp(s.repo[name].lastCheck, e).Some?
    && Crossed(e, t, Stamp(s.repo[name].lastCheck, e).value)
  }

  /** The domain is not removed, and reports no other expiry. */
  predicate Steady(w: Wiring, s: Watch, a: Action, name: string, e: Instant)
    requires w.retry.Valid()
  {
    a != RemoveWatching(name) && (Reports(w, s, a, name).Some? ==> Reports(w, s, a, name) == Some(e))
  }

  lemma SealedStep(w: Wiring, s: Watch, a: Action, name: string, e: Instant, t: nat)
    requires w.retry.Valid() && RowsValid(s) && (a.CheckNow? ==> LegalCheck(w, s, a.call))
    requires Sealed(s, name, e, t) && Steady(w, s, a, name, e)
    ensures Sealed(Apply(w, s, a), name, e, t) && !Emits(w, s, a, name, e, t)
  {
    if name in Apply(w, s, a).repo {
      RowAfter(w, s, a, name);
    }
    if Reports(w, s, a, name).Some? {
      StampsMoveForward(w, s, a.call);
      FiringIff(s.repo[name].thresholds, e, Stamp(s.repo[name].lastCheck, e), a.call.dispatchedAt, t);
    }
  }

  /** A result is stored only when the clock has not stepped back since the last one. */
  lemma StampsMoveForward(w: Wiring, s: Watch, c: CheckCall)
    requires w.retry.Valid() && Checkable(w, s, c.name) && EndingOf(w, s, c).stored.Some?
    requires s.repo[c.name].lastCheck.Some?
    ensures s.repo[c.name].lastCheck.value.at <= c.storedAt
  {
  }

  /** Action `k` of a run, in the state in which it happens. */
  predicate EmitsAt(w: Wiring, actions: seq<Action>, k: nat, name: string, e: Instant, t: nat)
    requires w.retry.Valid() && k < |actions|
  {
    Emits(w, Replay(w, actions[..k]), actions[k], name, e, t)
  }

  function ReportsAt(w: Wiring, actions: seq<Action>, k: nat, name: string): Option<Instant>
    requires w.retry.Valid() && k < |actions|
  {
    Reports(w, Replay(w, actions[..k]), actions[k], name)
  }

  predicate SteadyFrom(w: Wiring, actions: seq<Action>, n: nat, name: string, e: Instant)
    requires w.retry.Valid()
  {
    forall k :: n <= k < |actions| ==> SteadyAt(w, actions, k, name, e)
  }

  predicate SteadyAt(w: Wiring, actions: seq<Action>, k: nat, name: string, e: Instant)
    requires w.retry.Valid() && k < |actions|
  {
    Steady(w, Replay(w, actions[..k]), actions[k], name, e)
  }

  predicate SealedAt(w: Wiring, actions: seq<Action>, k: nat, name: string, e: Instant, t: nat)
    requires w.retry.Valid() && k <= |actions|
  {
    Sealed(Replay(w, actions[..k]), name, e, t)
  }

  lemma {:induction false} LegalPrefix(w: Wiring, actions: seq<Action>, k: nat)
    requires LegalRun(w, actions) && k <= |actions|
    ensures LegalRun(w, actions[..k])
    ensures k < |actions| && actions[k].CheckNow? ==> LegalCheck(w, Replay(w, actions[..k]), actions[k].call)
    decreases |actions|
  {
    var last := |actions| - 1;
    if k == |actions| {
      assert actions[..k] == actions;
    } else if k < last {
      LegalPrefix(w, actions[..last], k);
      assert actions[..last][..k] == actions[..k];
    }
  }

  lemma StepOfRun(w: Wiring, actions: seq<Action>, k: nat)
    requires LegalRun(w, actions) && k < |actions|
    ensures LegalRun(w, actions[..k]) && RowsValid(Replay(w, actions[..k]))
    ensures actions[k].CheckNow? ==> LegalCheck(w, Replay(w, actions[..k]), actions[k].call)
    ensures Replay(w, actions[..k + 1]) == Apply(w, Replay(w, actions[..k]), actions[k])
  {
    LegalPrefix(w, actions, k);
    RowsStayValid(w, actions[..k]);
    assert actions[..k + 1][..k] == actions[..k] && actions[..k + 1][k] == actions[k];
  }

  lemma SealedStepOfRun(w: Wiring, actions: seq<Action>, k: nat, name: string, e: Instant, t: nat)
    requires LegalRun(w, actions) && k < |actions|
    requires SealedAt(w, actions, k, name, e, t) && SteadyAt(w, actions, k, name, e)
    ensures SealedAt(w, actions, k + 1, name, e, t) && !EmitsAt(w, actions, k, name, e, t)
  {
    StepOfRun(w, actions, k);
    SealedStep(w, Replay(w, actions[..k]), actions[k], name, e, t);
  }

  /**
   A threshold that was crossed at the last stored check is not emitted at any later check, whenever it
   was added, as long as every OK check keeps reporting that expiry and the domain is not removed.
   */
  lemma {:induction false} LateThresholdStaysSilent(w: Wiring, actions: seq<Action>, n: nat, m: nat, name: string,
                                                     e: Instant, t: nat)
    requires LegalRun(w, actions) && n <= m <= |actions|
    requires SealedAt(w, actions, n, name, e, t) && SteadyFrom(w, actions, n, name, e)
    ensures SealedAt(w, actions, m, name, e, t)
    ensures forall k :: n <= k < m ==> !EmitsAt(w, actions, k, name, e, t)
    decreases m
  {
    if n < m {
      LateThresholdStaysSilent(w, actions, n, m - 1, name, e, t);
      SealedStepOfRun(w, actions, m - 1, name, e, t);
    }
  }

  function StampOf(s: Watch, name: string, e: Instant): Option<Instant> {
    if name in s.repo then Stamp(s.repo[name].lastCheck, e) else None
  }

  /** The dispatch instant of the latest report of this expiry by actions `n` to `m - 1`. */
  function LatestReport(w: Wiring, actions: seq<Action>, n: nat, m: nat, name: string, e: Instant): Option<Instant>
    requires w.retry.Valid() && n <= m <= |actions|
    decreases m
  {
    if n == m then None
    else if ReportsAt(w, actions, m - 1, name) == Some(e) then Some(actions[m - 1].call.dispatchedAt)
    else LatestReport(w, actions, n, m - 1, name, e)
  }

  /** Some of the actions `n` to `m - 1` emits the alert. */
  predicate EmittedIn(w: Wiring, actions: seq<Action>, n: nat, m: nat, name: string, e: Instant, t: nat)
    requires w.retry.Valid() && n <= m <= |actions|
    decreases m
  {
    n < m && (EmittedIn(w, actions, n, m - 1, name, e, t) || EmitsAt(w, actions, m - 1, name, e, t))
  }

  /** Whenever the domain reports an expiry from action `n` on, the threshold is listed. */
  predicate ListedFrom(w: Wiring, actions: seq<Action>, n: nat, name: string, t: nat)
    requires w.retry.Valid()
  {
    forall k :: n <= k < |actions| ==> ListedAt(w, actions, k, name, t)
  }

  predicate ListedAt(w: Wiring, actions: seq<Action>, k: nat, name: string, t: nat)
    requires w.retry.Valid() && k < |actions|
  {
    ReportsAt(w, actions, k, name).Some? ==> t in Replay(w, actions[..k]).repo[name].thresholds
  }

  /** What an action of a steady stretch does to the stamp and the clock of the domain, and when it emits. */
  lemma SteadyStep(w: Wiring, s: Watch, a: Action, name: string, e: Instant, t: nat)
    requires w.retry.Valid() && RowsValid(s) && (a.CheckNow? ==> LegalCheck(w, s, a.call)) && Steady(w, s, a, name, e)
    ensures if Reports(w, s, a, name).Some? then
              && StampOf(Apply(w, s, a), name, e) == Some(a.call.storedAt)
              && ClockOf(w, Apply(w, s, a), name) == a.call.dispatchedAt
              && ClockOf(w, s, name) <= a.call.storedAt <= a.call.dispatchedAt
              && (Emits(w, s, a, name, e, t) <==>
                  && t in s.repo[name].thresholds && Crossed(e, t, a.call.dispatchedAt)
                  && !(StampOf(s, name, e).Some? && Crossed(e, t, StampOf(s, name, e).value)))
            else
              && StampOf(Apply(w, s, a), name, e) == StampOf(s, name, e)
              && ClockOf(w, s, name) <= ClockOf(w, Apply(w, s, a), name)
              && !Emits(w, s, a, name, e, t)
  {
    if name in Apply(w, s, a).repo {
      RowAfter(w, s, a, name);
    }
    if Reports(w, s, a, name).Some? {
      FiringIff(s.repo[name].thresholds, e, Stamp(s.repo[name].lastCheck, e), a.call.dispatchedAt, t);
    }
  }

  /** What is known of the stamp and the clock after a steady stretch. */
  predicate StretchAt(w: Wiring, actions: seq<Action>, n: nat, m: nat, name: string, e: Instant)
    requires w.retry.Valid() && n <= m <= |actions|
  {
    var s, latest := Replay(w, actions[..m]), LatestReport(w, actions, n, m, name, e);
    if latest.None? then StampOf(s, name, e) == StampOf(Replay(w, actions[..n]), name, e)
    else
      && StampOf(s, name, e).Some? && StampOf(s, name, e).value <= latest.value
      && latest.value <= ClockOf(w, s, name)
  }

  predicate EmittedRightly(w: Wiring, actions: seq<Action>, n: nat, m: nat, name: string, e: Instant, t: nat)
    requires w.retry.Valid() && n <= m <= |actions|
  {
    var latest := LatestReport(w, actions, n, m, name, e);
    EmittedIn(w, actions, n, m, name, e, t) <==>
      !SealedAt(w, actions, n, name, e, t) && latest.Some? && Crossed(e, t, latest.value)
  }

  lemma StretchStep(w: Wiring, actions: seq<Action>, n: nat, m: nat, name: string, e: Instant, t: nat)
    requires LegalRun(w, actions) && n <= m < |actions|
    requires SteadyAt(w, actions, m, name, e) && ListedAt(w, actions, m, name, t)
    requires StretchAt(w, actions, n, m, name, e) && EmittedRightly(w, actions, n, m, name, e, t)
    requires SealedAt(w, actions, n, name, e, t) ==> SealedAt(w, actions, m, name, e, t)
    ensures StretchAt(w, actions, n, m + 1, name, e) && EmittedRightly(w, actions, n, m + 1, name, e, t)
  {
    StepOfRun(w, actions, m);
    SteadyStep(w, Replay(w, actions[..m]), actions[m], name, e, t);
  }

  lemma {:induction false} Stretch(w: Wiring, actions: seq<Action>, n: nat, m: nat, name: string, e: Instant, t: nat)
    requires LegalRun(w, actions) && n <= m <= |actions|
    requires SteadyFrom(w, actions, n, name, e) && ListedFrom(w, actions, n, name, t)
    ensures StretchAt(w, actions, n, m, name, e) && EmittedRightly(w, actions, n, m, name, e, t)
    decreases m
  {
    if n < m {
      Stretch(w, actions, n, m - 1, name, e, t);
      if SealedAt(w, actions, n, name, e, t) {
        LateThresholdStaysSilent(w, actions, n, m - 1, name, e, t);
      }
      StretchStep(w, actions, n, m - 1, name, e, t);
    }
  }

  /**
   A threshold that is listed from action `n` on, while every OK check reports one expiry and the domain is
   not removed, is emitted from then on if and only if it was not yet crossed at the last check stored
   before and is crossed at the latest check since.
   */
  lemma LateThresholdFiresIff(w: Wiring, actions: seq<Action>, n: nat, m: nat, name: string, e: Instant, t: nat)
    requires LegalRun(w, actions) && n <= m <= |actions|
    requires SteadyFrom(w, actions, n, name, e) && ListedFrom(w, actions, n, name, t)
    ensures var latest := LatestReport(w, actions, n, m, name, e);
            EmittedIn(w, actions, n, m, name, e, t) <==>
            !SealedAt(w, actions, n, name, e, t) && latest.Some? && Crossed(e, t, latest.value)
  {
    Stretch(w, actions, n, m, name, e, t);
  }

  /** The row holds no stamp for this expiry. */
  predicate Unstamped(s: Watch, name: string, e: Instant) {
    name in s.repo ==> Stamp(s.repo[name].lastCheck, e).None?
  }

  lemma UnstampedStep(w: Wiring, s: Watch, a: Action, name: string, e: Instant)
    requires w.retry.Valid() && RowsValid(s) && (a.CheckNow? ==> LegalCheck(w, s, a.call))
    requires Unstamped(s, name, e) || Reports(w, s, a, name).Some? || a == RemoveWatching(name)
    requires Reports(w, s, a, name) != Some(e)
    ensures Unstamped(Apply(w, s, a), name, e)
  {
    if name in Apply(w, s, a).repo {
      RowAfter(w, s, a, name);
    }
  }

  predicate UnstampedAt(w: Wiring, actions: seq<Action>, k: nat, name: string, e: Instant)
    requires w.retry.Valid() && k <= |actions|
  {
    Unstamped(Replay(w, actions[..k]), name, e)
  }

  /** The action ends what the row remembers of this expiry. */
  predicate ReleasesAt(w: Wiring, actions: seq<Action>, k: nat, name: string, e: Instant)
    requires w.retry.Valid() && k < |actions|
  {
    && (ReportsAt(w, actions, k, name).Some? || actions[k] == RemoveWatching(name))
    && ReportsAt(w, actions, k, name) != Some(e)
  }

  lemma UnstampedStepOfRun(w: Wiring, actions: seq<Action>, k: nat, name: string, e: Instant)
    requires LegalRun(w, actions) && k < |actions|
    requires UnstampedAt(w, actions, k, name, e) || ReleasesAt(w, actions, k, name, e)
    requires ReportsAt(w, actions, k, name) != Some(e)
    ensures UnstampedAt(w, actions, k + 1, name, e)
  {
    StepOfRun(w, actions, k);
    UnstampedStep(w, Replay(w, actions[..k]), actions[k], name, e);
  }

  lemma {:induction false} StaysUnstamped(w: Wiring, actions: seq<Action>, n: nat, m: nat, name: string, e: Instant)
    requires LegalRun(w, actions) && n < m <= |actions| && ReleasesAt(w, actions, n, name, e)
    requires forall k :: n < k < m ==> ReportsAt(w, actions, k, name) != Some(e)
    ensures UnstampedAt(w, actions, m, name, e)
    decreases m
  {
    if n < m - 1 {
      StaysUnstamped(w, actions, n, m - 1, name, e);
    }
    UnstampedStepOfRun(w, actions, m - 1, name, e);
  }

  /**
   Another expiry in between, or a removal, releases every crossed threshold: the next check that reports
   the first expiry again emits exactly the listed thresholds that are crossed then.
   */
  lemma AnotherExpiryReleases(w: Wiring, actions: seq<Action>, n: nat, m: nat, name: string, e: Instant, t: nat)
    requires LegalRun(w, actions) && n < m < |actions| && ReleasesAt(w, actions, n, name, e)
    requires forall k :: n < k < m ==> ReportsAt(w, actions, k, name) != Some(e)
    requires ReportsAt(w, actions, m, name) == Some(e)
    ensures EmitsAt(w, actions, m, name, e, t) <==>
            t in Replay(w, actions[..m]).repo[name].thresholds && Crossed(e, t, actions[m].call.dispatchedAt)
  {
    var s := Replay(w, actions[..m]);
    StaysUnstamped(w, actions, n, m, name, e);
    FiringIff(s.repo[name].thresholds, e, None, actions[m].call.dispatchedAt, t);
  }

  // ---------------------------------------------------------- a concrete late threshold

  /** A check of `name` that reports `e` at once. */
  function PlainCheck(name: string, e: Instant, at: Instant, channels: seq<Channel>): CheckCall {
    CheckCall(name, (k: nat) => Returned(CheckResult(name, OK, Some(e))), at, at, Some(channels))
  }

  /** The domain can be checked now. */
  predicate MayCheck(w: Wiring, s: Watch, name: string, at: Instant) {
    && Checkable(w, s, name) && ClockOf(w, s, name) <= at && Idle(s.pool, name)
    && (s.repo[name].lastCheck.Some? ==> s.repo[name].lastCheck.value.at <= at)
  }

  lemma PlainEnding(w: Wiring, s: Watch, name: string, e: Instant, at: Instant, channels: seq<Channel>)
    requires w.retry.Valid() && MayCheck(w, s, name, at)
    ensures var result := CheckResult(name, OK, Some(e));
            EndingOf(w, s, PlainCheck(name, e, at, channels))
              == Ending(Some(s.repo[name].(lastCheck := Some(LastCheck(at, OK, Some(e))))),
                        Some(DomainCheckCompleted(result)), Answer(result))
  {
    assert LastAttempt(PlainCheck(name, e, at, channels).outcomes, w.retry.maxAttempts, 1) == 1;
  }

  /** Such a check is legal, reports the expiry, and emits what fires. */
  lemma PlainReports(w: Wiring, s: Watch, name: string, e: Instant, at: Instant, channels: seq<Channel>, t: nat)
    requires w.retry.Valid() && MayCheck(w, s, name, at) && DistinctIds(channels, w.notifiers)
    ensures LegalCheck(w, s, PlainCheck(name, e, at, channels))
    ensures Reports(w, s, CheckNow(PlainCheck(name, e, at, channels)), name) == Some(e)
    ensures Emits(w, s, CheckNow(PlainCheck(name, e, at, channels)), name, e, t) <==>
            t in s.repo[name].thresholds && Fires(e, Stamp(s.repo[name].lastCheck, e), at, t)
  {
    PlainEnding(w, s, name, e, at, channels);
    FiringIff(s.repo[name].thresholds, e, Stamp(s.repo[name].lastCheck, e), at, t);
  }

  /** What it does. */
  lemma PlainEffect(w: Wiring, s: Watch, name: string, e: Instant, at: Instant, channels: seq<Channel>)
    requires w.retry.Valid() && MayCheck(w, s, name, at)
    ensures var row, result := s.repo[name], CheckResult(name, OK, Some(e));
            var alerts := Alerts(w.cycleId, row.thresholds, row.lastCheck, result, at);
            AfterCheck(w, s, PlainCheck(name, e, at, channels)) == Watch(
              s.repo[name := row.(lastCheck := Some(LastCheck(at, OK, Some(e))))],
              Pool(s.pool.tasks + TaskList(alerts, channels, w.notifiers), s.pool.fired, s.pool.sent,
                   s.pool.events + [DomainCheckCompleted(result)]),
              s.clocks[name := at])
  {
    PlainEnding(w, s, name, e, at, channels);
  }

  lemma {:induction false} NoChannelsNoTasks(alerts: seq<Alert>, notifiers: set<string>)
    ensures TaskList(alerts, [], notifiers) == []
  {
    if alerts != [] {
      NoChannelsNoTasks(alerts[..|alerts| - 1], notifiers);
    }
  }

  /** Something that `ensure_watching` accepts. */
  predicate Watchable(w: Wiring, d: Watched) {
    && d.checkerId in w.checkers && d.checkerId != "" && IsSchedule(d.cron)
    && d.channels != [] && (forall id :: id in ChannelIds(d.channels) ==> id != [])
  }

  lemma EnsureSteps(w: Wiring, s: Watch, d: Watched)
    requires w.retry.Valid() && RowsValid(s) && Watchable(w, d) && d.thresholds != [] && Descending(d.thresholds)
    ensures Apply(w, s, EnsureWatching(d)) == s.(repo := s.repo[d.name := RowFor(d, Lookup(s.repo, d.name))])
  {
  }

  lemma OneCheckEmits(w: Wiring, actions: seq<Action>, a: Action, name: string, e: Instant, t: nat)
    requires w.retry.Valid()
    ensures Emitted(w, actions + [a], name, e, t) <==>
            Emitted(w, actions, name, e, t) || Emits(w, Replay(w, actions), a, name, e, t)
    ensures Reports(w, Replay(w, actions), a, name) == Some(e) ==>
              Reported(w, actions + [a], name, e) == Some(a.call.dispatchedAt)
  {
    assert (actions + [a])[..|actions + [a]| - 1] == actions;
  }

  /** The domain is watched at these thresholds, idle, and free to be checked at the start instant. */
  predicate Ready(w: Wiring, s: Watch, d: Watched, thresholds: seq<nat>) {
    && d.name in s.repo && s.repo[d.name].thresholds == thresholds && s.repo[d.name].checkerId in w.checkers
    && s.pool.tasks == [] && ClockOf(w, s, d.name) <= w.startedAt
    && (s.repo[d.name].lastCheck.Some? ==> s.repo[d.name].lastCheck.value.at <= w.startedAt)
  }

  /** The domain may be added, or is there already and ready. */
  predicate Addable(w: Wiring, s: Watch, d: Watched) {
    && s.pool.tasks == [] && ClockOf(w, s, d.name) <= w.startedAt
    && (d.name in s.repo ==> Ready(w, s, d, s.repo[d.name].thresholds))
  }

  lemma ReadyAfterEnsure(w: Wiring, s: Watch, d: Watched, e: Instant)
    requires w.retry.Valid() && RowsValid(s) && Addable(w, s, d)
    requires Watchable(w, d) && d.thresholds != [] && Descending(d.thresholds)
    ensures var t := Apply(w, s, EnsureWatching(d));
            Ready(w, t, d, d.thresholds) && (Sealed(t, d.name, e, 5) <==> Sealed(s, d.name, e, 5))
  {
    EnsureSteps(w, s, d);
  }

  lemma ReadyAfterCheck(w: Wiring, s: Watch, d: Watched, thresholds: seq<nat>)
    requires w.retry.Valid() && Ready(w, s, d, thresholds)
    ensures Ready(w, AfterCheck(w, s, PlainCheck(d.name, w.startedAt + 5.0, w.startedAt, [])), d, thresholds)
    ensures Sealed(AfterCheck(w, s, PlainCheck(d.name, w.startedAt + 5.0, w.startedAt, [])), d.name,
            w.startedAt + 5.0, 5)
  {
    var e, row := w.startedAt + 5.0, s.repo[d.name];
    PlainEffect(w, s, d.name, e, w.startedAt, []);
    NoChannelsNoTasks(Alerts(w.cycleId, row.thresholds, row.lastCheck, CheckResult(d.name, OK, Some(e)), w.startedAt),
                      w.notifiers);
  }

  /** A check five seconds before the expiry emits a threshold of five unless it is sealed. */
  lemma FiveSecondCheck(w: Wiring, s: Watch, d: Watched, thresholds: seq<nat>)
    requires w.retry.Valid() && Ready(w, s, d, thresholds)
    ensures var e := w.startedAt + 5.0;
            var c := PlainCheck(d.name, e, w.startedAt, []);
            && LegalCheck(w, s, c) && Reports(w, s, CheckNow(c), d.name) == Some(e)
            && (Emits(w, s, CheckNow(c), d.name, e, 5) <==> 5 in thresholds && !Sealed(s, d.name, e, 5))
  {
    var e := w.startedAt + 5.0;
    assert Fires(e, Stamp(s.repo[d.name].lastCheck, e), w.startedAt, 5) <==> !Sealed(s, d.name, e, 5);
    PlainReports(w, s, d.name, w.startedAt + 5.0, w.startedAt, [], 5);
  }

  /** A run goes on with adding or updating the domain, */
  lemma ThenWatch(w: Wiring, actions: seq<Action>, d: Watched)
    requires LegalRun(w, actions) && Addable(w, Replay(w, actions), d)
    requires Watchable(w, d) && d.thresholds != [] && Descending(d.thresholds)
    ensures var more, e := actions + [EnsureWatching(d)], w.startedAt + 5.0;
            && LegalRun(w, more) && Ready(w, Replay(w, more), d, d.thresholds)
            && (Sealed(Replay(w, more), d.name, e, 5) <==> Sealed(Replay(w, actions), d.name, e, 5))
            && (Emitted(w, more, d.name, e, 5) <==> Emitted(w, actions, d.name, e, 5))
  {
    RowsStayValid(w, actions);
    ReadyAfterEnsure(w, Replay(w, actions), d, w.startedAt + 5.0);
    ReplayOneMore(w, actions, EnsureWatching(d));
    OneCheckEmits(w, actions, EnsureWatching(d), d.name, w.startedAt + 5.0, 5);
  }

  /** and with checking it five seconds before its expiry. */
  lemma ThenCheck(w: Wiring, actions: seq<Action>, d: Watched, thresholds: seq<nat>)
    requires LegalRun(w, actions) && Ready(w, Replay(w, actions), d, thresholds)
    ensures var e := w.startedAt + 5.0;
            var more := actions + [CheckNow(PlainCheck(d.name, e, w.startedAt, []))];
            && LegalRun(w, more) && Ready(w, Replay(w, more), d, thresholds) && Sealed(Replay(w, more), d.name, e, 5)
            && Reported(w, more, d.name, e) == Some(w.startedAt)
            && (Emitted(w, more, d.name, e, 5) <==>
                || Emitted(w, actions, d.name, e, 5)
                || (5 in thresholds && !Sealed(Replay(w, actions), d.name, e, 5)))
  {
    var e, s := w.startedAt + 5.0, Replay(w, actions);
    var check := CheckNow(PlainCheck(d.name, e, w.startedAt, []));
    FiveSecondCheck(w, s, d, thresholds);
    ReadyAfterCheck(w, s, d, thresholds);
    ReplayOneMore(w, actions, check);
    OneCheckEmits(w, actions, check, d.name, e, 5);
    assert Apply(w, s, check) == AfterCheck(w, s, check.call);
  }

  /** The first half of the run below. */
  lemma FirstTenThenFive(w: Wiring, d: Watched) returns (actions: seq<Action>)
    requires w.retry.Valid() && Watchable(w, d)
    ensures var e, s := w.startedAt + 5.0, Replay(w, actions);
            && LegalRun(w, actions) && Ready(w, s, d, [10, 5])
            && Sealed(s, d.name, e, 5) && !Emitted(w, actions, d.name, e, 5)
  {
    var c := CheckNow(PlainCheck(d.name, w.startedAt + 5.0, w.startedAt, []));
    var one, two := d.(thresholds := [10]), d.(thresholds := [10, 5]);
    var watched := [] + [EnsureWatching(one)];
    ThenWatch(w, [], one);
    ThenCheck(w, watched, one, [10]);
    ThenWatch(w, watched + [c], two);
    actions := watched + [c] + [EnsureWatching(two)];
  }

  /**
   Such a threshold exists: a domain watched at ten seconds is checked with five seconds left, then a
   threshold of five is added and the domain checked again. The threshold is listed and crossed, and no
   check of the run has emitted it.
   */
  lemma LateThresholdIsLost(w: Wiring, d: Watched) returns (actions: seq<Action>)
    requires w.retry.Valid() && Watchable(w, d)
    ensures var e := w.startedAt + 5.0;
            && LegalRun(w, actions) && d.name in Replay(w, actions).repo
            && Replay(w, actions).repo[d.name].thresholds == [10, 5]
            && Reported(w, actions, d.name, e) == Some(w.startedAt) && Crossed(e, 5, w.startedAt)
            && !Emitted(w, actions, d.name, e, 5)
  {
    var half := FirstTenThenFive(w, d);
    ThenCheck(w, half, d, [10, 5]);
    actions := half + [CheckNow(PlainCheck(d.name, w.startedAt + 5.0, w.startedAt, []))];
  }

  // ---------------------------------------------------------- failed deliveries

  lemma ContendsIffEmits(w: Wiring, s: Watch, c: CheckCall, e: Instant, t: nat, b: nat)
    requires w.retry.Valid() && Checkable(w, s, c.name) && LegalCheck(w, s, c) && Descending(s.repo[c.name].thresholds)
    requires Reports(w, s, CheckNow(c), c.name) == Some(e)
    requires c.resolved.Some? && b < |c.resolved.value| && c.resolved.value[b].notifierId in w.notifiers
    requires Key(c.name, t, w.cycleId(e), c.resolved.value[b].id) !in s.pool.fired
    ensures var k := Key(c.name, t, w.cycleId(e), c.resolved.value[b].id);
            CountIf(TasksFor(w, s, c), Contends(k, s.pool.fired)) == One(Emits(w, s, CheckNow(c), c.name, e, t))
  {
    var channels, alerts := c.resolved.value, AlertsOf(w, s, c);
    var k := Key(c.name, t, w.cycleId(e), channels[b].id);
    var p := Contends(k, s.pool.fired);
    AlertsAreDistinct(w, s, c);
    OneTaskPerKey(alerts, channels, w.notifiers, k, s.pool.fired);
    if Emits(w, s, CheckNow(c), c.name, e, t) {
      EmitsIsAlert(w, s, c, e, t);
      var a :| 0 <= a < |alerts| && alerts[a] == AlertOf(w.cycleId, c.name, e, t);
      TaskListHas(alerts, channels, w.notifiers, a, b);
      var task := TasksOf(alerts[a], channels, w.notifiers)[b];
      assert p(task);
      CountIfPositive(TasksFor(w, s, c), p);
    } else {
      var fired := Firing(s.repo[c.name].thresholds, e, Stamp(s.repo[c.name].lastCheck, e), c.dispatchedAt);
      assert forall a :: 0 <= a < |alerts| ==> alerts[a].threshold == fired[a] && fired[a] in fired;
    }
  }

  /**
   When an alert has been emitted for a key that was never announced, in particular when its delivery
   failed, the next check that reports the expiry contends for the key again if and only if the row's
   last check was of another expiry, or the threshold was crossed after that last check was stored.
   Otherwise the alert is gone: the policy has seen it crossed, and the store does not hold it.
   */
  lemma FailedDeliveryIsRetriedIff(w: Wiring, actions: seq<Action>, c: CheckCall, thresholds: seq<nat>,
                                   e: Instant, t: nat, b: nat)
    requires LegalRun(w, actions) && Fixed(actions, c.name, thresholds) && LegalCheck(w, Replay(w, actions), c)
    requires Reports(w, Replay(w, actions), CheckNow(c), c.name) == Some(e) && Emitted(w, actions, c.name, e, t)
    requires c.resolved.Some? && b < |c.resolved.value| && c.resolved.value[b].notifierId in w.notifiers
    requires Dispatches(Replay(w, actions).pool, Key(c.name, t, w.cycleId(e), c.resolved.value[b].id)) == 0
    ensures var s, k := Replay(w, actions), Key(c.name, t, w.cycleId(e), c.resolved.value[b].id);
            var stamp := Stamp(s.repo[c.name].lastCheck, e);
            CountIf(TasksFor(w, s, c), Contends(k, s.pool.fired)) == One(stamp.None? || stamp.value < e - t as real)
  {
    var s, k := Replay(w, actions), Key(c.name, t, w.cycleId(e), c.resolved.value[b].id);
    StoreMatchesEvents(w, actions, k);
    RowsStayValid(w, actions);
    ContendsIffEmits(w, s, c, e, t, b);
    EmittedIffCrossed(w, actions, c.name, thresholds, e, t);
    RowIsAnchored(w, actions, c.name, thresholds);
    ReportedBeforeNow(w, actions, c.name, e);
    FiringIff(thresholds, e, Stamp(s.repo[c.name].lastCheck, e), c.dispatchedAt, t);
  }

  // ------------------------------------------------------- a concrete failed delivery

  /** The only alert of a domain watched at ten seconds, at its first check, five seconds before its expiry. */
  lemma OneAlert(cycleId: Instant -> string, name: string, at: Instant)
    ensures Alerts(cycleId, [10], None, CheckResult(name, OK, Some(at + 5.0)), at)
         == [AlertOf(cycleId, name, at + 5.0, 10)]
  {
    assert [10][..0] == [];
    assert Firing([10], at + 5.0, None, at) == [10];
  }

  /** The row and the clock once that first check is stored. */
  predicate FirstChecked(w: Wiring, s: Watch, d: Watched) {
    && s.repo == map[d.name := RowFor(d, None).(lastCheck := Some(LastCheck(w.startedAt, OK, Some(w.startedAt + 5.0))))]
    && ClockOf(w, s, d.name) == w.startedAt
  }

  lemma FirstEnsure(w: Wiring, d: Watched)
    requires w.retry.Valid() && Watchable(w, d) && d.thresholds == [10]
    ensures Apply(w, INITIALLY, EnsureWatching(d)) == INITIALLY.(repo := map[d.name := RowFor(d, None)])
  {
    EnsureSteps(w, INITIALLY, d);
  }

  lemma FirstAlert(w: Wiring, s: Watch, d: Watched, channel: Channel)
    requires w.retry.Valid() && Watchable(w, d) && d.thresholds == [10] && channel.notifierId in w.notifiers
    requires s == INITIALLY.(repo := map[d.name := RowFor(d, None)])
    ensures var after := AfterCheck(w, s, PlainCheck(d.name, w.startedAt + 5.0, w.startedAt, [channel]));
            && after.pool
               == Pool([Task(Key(d.name, 10, w.cycleId(w.startedAt + 5.0), channel.id), true, Start)], map[], [],
                       [DomainCheckCompleted(CheckResult(d.name, OK, Some(w.startedAt + 5.0)))])
            && FirstChecked(w, after, d)
  {
    var e := w.startedAt + 5.0;
    PlainEffect(w, s, d.name, e, w.startedAt, [channel]);
    OneAlert(w.cycleId, d.name, w.startedAt);
    assert [AlertOf(w.cycleId, d.name, e, 10)][..0] == [];
  }

  /** The three steps of a task whose notifier fails for good. */
  lemma FailsForGood(policy: RetryPolicies.RetryPolicy, k: Key, events: seq<Event>, s: Step)
    requires s.task == 0 && s.outcome == PermanentlyFailed
    ensures Advance(policy, Advance(policy, Advance(policy, Pool([Task(k, true, Start)], map[], [], events), s), s), s)
         == Pool([Task(k, true, Done)], map[], [], events + [NotificationFailed(k, 1)])
  {
    AdvanceAlone(policy, Task(k, true, Start), map[], [], events, s);
    AdvanceAlone(policy, Task(k, true, Sending(1)), map[], [], events, s);
    AdvanceAlone(policy, Task(k, true, Reporting(1)), map[], [], events, s);
  }

  /** Three more steps of a run. */
  lemma ThreeSteps(w: Wiring, actions: seq<Action>, s: Step, name: string, e: Instant, t: nat)
    returns (more: seq<Action>)
    requires LegalRun(w, actions)
    ensures LegalRun(w, more) && (Emitted(w, actions, name, e, t) ==> Emitted(w, more, name, e, t))
    ensures var before, after := Replay(w, actions), Replay(w, more);
            after == before.(pool := Advance(w.retry, Advance(w.retry, Advance(w.retry, before.pool, s), s), s))
  {
    ReplayOneMore(w, actions, TaskStep(s));
    OneCheckEmits(w, actions, TaskStep(s), name, e, t);
    var one := actions + [TaskStep(s)];
    ReplayOneMore(w, one, TaskStep(s));
    OneCheckEmits(w, one, TaskStep(s), name, e, t);
    var two := one + [TaskStep(s)];
    ReplayOneMore(w, two, TaskStep(s));
    OneCheckEmits(w, two, TaskStep(s), name, e, t);
    more := two + [TaskStep(s)];
  }

  /** The run up to the start of the delivery. */
  lemma FirstDispatched(w: Wiring, d: Watched, channel: Channel) returns (actions: seq<Action>)
    requires w.retry.Valid() && Watchable(w, d) && d.thresholds == [10] && channel.notifierId in w.notifiers
    ensures LegalRun(w, actions) && FirstChecked(w, Replay(w, actions), d)
    ensures Emitted(w, actions, d.name, w.startedAt + 5.0, 10)
    ensures Replay(w, actions).pool
         == Pool([Task(Key(d.name, 10, w.cycleId(w.startedAt + 5.0), channel.id), true, Start)], map[], [],
                 [DomainCheckCompleted(CheckResult(d.name, OK, Some(w.startedAt + 5.0)))])
  {
    var e := w.startedAt + 5.0;
    var ensure, check := EnsureWatching(d), CheckNow(PlainCheck(d.name, e, w.startedAt, [channel]));
    var s := Apply(w, INITIALLY, ensure);
    FirstEnsure(w, d);
    PlainReports(w, s, d.name, e, w.startedAt, [channel], 10);
    FirstAlert(w, s, d, channel);
    ReplayOneMore(w, [], ensure);
    ReplayOneMore(w, [] + [ensure], check);
    OneCheckEmits(w, [] + [ensure], check, d.name, e, 10);
    actions := [] + [ensure] + [check];
  }

  /** The run up to the failure. */
  lemma FailedRun(w: Wiring, d: Watched, channel: Channel) returns (actions: seq<Action>)
    requires w.retry.Valid() && Watchable(w, d) && d.thresholds == [10] && channel.notifierId in w.notifiers
    ensures LegalRun(w, actions) && FirstChecked(w, Replay(w, actions), d)
    ensures Emitted(w, actions, d.name, w.startedAt + 5.0, 10)
    ensures var k := Key(d.name, 10, w.cycleId(w.startedAt + 5.0), channel.id);
            Replay(w, actions).pool
              == Pool([Task(k, true, Done)], map[], [],
                      [DomainCheckCompleted(CheckResult(d.name, OK, Some(w.startedAt + 5.0)))]
                          + [NotificationFailed(k, 1)])
  {
    var e := w.startedAt + 5.0;
    var k, step := Key(d.name, 10, w.cycleId(e), channel.id), Step(0, PermanentlyFailed, w.startedAt);
    var first := FirstDispatched(w, d, channel);
    actions := ThreeSteps(w, first, step, d.name, e, 10);
    FailsForGood(w.retry, k, [DomainCheckCompleted(CheckResult(d.name, OK, Some(e)))], step);
  }

  /** After the failure, the next check of the same expiry does not bring the alert up again. */
  lemma NotRaisedAgain(w: Wiring, s: Watch, d: Watched, channel: Channel)
    requires w.retry.Valid() && Watchable(w, d) && d.thresholds == [10] && channel.notifierId in w.notifiers
    requires FirstChecked(w, s, d) && Idle(s.pool, d.name) && s.pool.fired == map[]
    ensures var c := PlainCheck(d.name, w.startedAt + 5.0, w.startedAt, [channel]);
            var k := Key(d.name, 10, w.cycleId(w.startedAt + 5.0), channel.id);
            && Checkable(w, s, d.name) && LegalCheck(w, s, c)
            && CountIf(TasksFor(w, s, c), Contends(k, s.pool.fired)) == 0
  {
    var e := w.startedAt + 5.0;
    assert s.repo[d.name].thresholds == [10] && Stamp(s.repo[d.name].lastCheck, e) == Some(w.startedAt);
    PlainReports(w, s, d.name, e, w.startedAt, [channel], 10);
    ContendsIffEmits(w, s, PlainCheck(d.name, e, w.startedAt, [channel]), e, 10, 0);
  }

  /**
   A concrete alert that is lost for good: its only delivery fails, it is announced as failed, and the next
   check of the same expiry, five seconds before it, does not contend for its key.
   */
  lemma FailedAlertIsLost(w: Wiring, d: Watched, channel: Channel) returns (actions: seq<Action>)
    requires w.retry.Valid() && Watchable(w, d) && d.thresholds == [10] && channel.notifierId in w.notifiers
    ensures var e := w.startedAt + 5.0;
            var k, c := Key(d.name, 10, w.cycleId(e), channel.id), PlainCheck(d.name, e, w.startedAt, [channel]);
            var s := Replay(w, actions);
            && LegalRun(w, actions + [CheckNow(c)])
            && Emitted(w, actions, d.name, e, 10) && Crossed(e, 10, w.startedAt)
            && NotificationFailed(k, 1) in s.pool.events && Dispatches(s.pool, k) == 0
            && Checkable(w, s, d.name)
            && CountIf(TasksFor(w, s, c), Contends(k, s.pool.fired)) == 0
  {
    var e := w.startedAt + 5.0;
    var k, c := Key(d.name, 10, w.cycleId(e), channel.id), PlainCheck(d.name, e, w.startedAt, [channel]);
    actions := FailedRun(w, d, channel);
    NotRaisedAgain(w, Replay(w, actions), d, channel);
    ReplayOneMore(w, actions, CheckNow(c));
    CountNothing(Replay(w, actions).pool.events, IsDispatchOf(k));
  }
}
