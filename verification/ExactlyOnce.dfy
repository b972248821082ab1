/**
 What the two guards of the alerts achieve together when nothing goes wrong: with a transport that always
 delivers, every crossed threshold is delivered exactly once per channel and expiry, and a renewal starts
 anew.
 */
module ExactlyOnce {
  import opened Common
  import opened Monitoring
  import opened NotificationPolicies
  import opened Delivery
  import opened WatchRuns
  import opened LateAlerts
  import RetryPolicies

  // ------------------------------------------------------------ renewals re-fire

  /** A row has a stamp only for expiries that were reported. */
  lemma {:induction false} StampIsReported(w: Wiring, actions: seq<Action>, name: string, e: Instant)
    requires LegalRun(w, actions)
    ensures StampOf(Replay(w, actions), name, e).Some? ==> Reported(w, actions, name, e).Some?
  {
    if actions != [] {
      var before, a := actions[..|actions| - 1], actions[|actions| - 1];
      StampIsReported(w, before, name, e);
      RowsStayValid(w, before);
      if name in Replay(w, actions).repo {
        RowAfter(w, Replay(w, before), a, name);
      }
    }
  }

  /**
   A renewal alerts again: the first check that reports a new expiry creates exactly one contending task per
   usable channel for each listed threshold that is crossed, and none for the others.
   */
  lemma RenewalAlertsAgain(w: Wiring, actions: seq<Action>, c: CheckCall, e: Instant, t: nat, b: nat)
    requires LegalRun(w, actions) && LegalCheck(w, Replay(w, actions), c)
    requires Reports(w, Replay(w, actions), CheckNow(c), c.name) == Some(e)
    requires Reported(w, actions, c.name, e).None? && Separated(w, actions, c.name, e)
    requires c.resolved.Some? && b < |c.resolved.value| && c.resolved.value[b].notifierId in w.notifiers
    ensures var s, k := Replay(w, actions), Key(c.name, t, w.cycleId(e), c.resolved.value[b].id);
            CountIf(TasksFor(w, s, c), Contends(k, s.pool.fired))
              == One(t in s.repo[c.name].thresholds && Crossed(e, t, c.dispatchedAt))
  {
    var s := Replay(w, actions);
    RowsStayValid(w, actions);
    RenewalIsNotHeldBack(w, actions, c.name, e, t, c.resolved.value[b].id);
    ContendsIffEmits(w, s, c, e, t, b);
    StampIsReported(w, actions, c.name, e);
    FiringIff(s.repo[c.name].thresholds, e, None, c.dispatchedAt, t);
  }

  // ---------------------------------------------------------------- exactly once

  /** The transport answers every attempt with success. */
  predicate AlwaysDelivers(actions: seq<Action>) {
    forall i :: 0 <= i < |actions| && actions[i].TaskStep? ==> actions[i].step.outcome == Sent
  }

  /** The resolver gives this domain the same channels at every check. */
  predicate FixedChannels(actions: seq<Action>, name: string, channels: seq<Channel>) {
    forall i :: 0 <= i < |actions| && actions[i].CheckNow? && actions[i].call.name == name ==>
                  actions[i].call.resolved == Some(channels)
  }

  /** The task will record its key if the transport delivers. */
  predicate Bound(t: Task, k: Key) {
    t.key == k && t.known && (t.pc.Start? || t.pc.Sending? || t.pc.Sleeping? || t.pc.Recording?)
  }

  /** The key is in the store, or on its way there. */
  predicate OnItsWay(pool: Pool, k: Key) {
    k in pool.fired || exists i :: 0 <= i < |pool.tasks| && Bound(pool.tasks[i], k)
  }

  lemma StepKeepsGoing(policy: RetryPolicies.RetryPolicy, pool: Pool, s: Step, k: Key)
    requires OnItsWay(pool, k) && s.outcome == Sent
    ensures OnItsWay(Advance(policy, pool, s), k)
  {
    var next := Advance(policy, pool, s);
    if k !in pool.fired {
      var i :| 0 <= i < |pool.tasks| && Bound(pool.tasks[i], k);
      if k !in next.fired {
        assert Bound(next.tasks[i], k);
      }
    }
  }

  lemma NewTaskIsBound(w: Wiring, s: Watch, c: CheckCall, e: Instant, t: nat, b: nat)
    requires w.retry.Valid() && Checkable(w, s, c.name) && LegalCheck(w, s, c)
    requires c.resolved.Some? && b < |c.resolved.value| && c.resolved.value[b].notifierId in w.notifiers
    requires Emits(w, s, CheckNow(c), c.name, e, t)
    ensures OnItsWay(AfterCheck(w, s, c).pool, Key(c.name, t, w.cycleId(e), c.resolved.value[b].id))
  {
    var alerts, channels := AlertsOf(w, s, c), c.resolved.value;
    EmitsIsAlert(w, s, c, e, t);
    var a :| 0 <= a < |alerts| && alerts[a] == AlertOf(w.cycleId, c.name, e, t);
    TaskListHas(alerts, channels, w.notifiers, a, b);
    var task := TasksOf(alerts[a], channels, w.notifiers)[b];
    var j :| 0 <= j < |TasksFor(w, s, c)| && TasksFor(w, s, c)[j] == task;
    assert AfterCheck(w, s, c).pool.tasks[|s.pool.tasks| + j] == task;
    assert Bound(task, Key(c.name, t, w.cycleId(e), channels[b].id));
  }

  lemma MoreTasksKeepGoing(pool: Pool, tasks: seq<Task>, event: Option<Event>, k: Key)
    requires OnItsWay(pool, k)
    ensures OnItsWay(WithTasks(pool, tasks, event), k)
  {
    if k !in pool.fired {
      var i :| 0 <= i < |pool.tasks| && Bound(pool.tasks[i], k);
      assert Bound(WithTasks(pool, tasks, event).tasks[i], k);
    }
  }

  /** One action: what was on its way stays so, and what is emitted gets on its way. */
  lemma ActionKeepsGoing(w: Wiring, s: Watch, a: Action, name: string, e: Instant, t: nat, channel: Channel)
    requires w.retry.Valid() && (a.CheckNow? ==> LegalCheck(w, s, a.call)) && (a.TaskStep? ==> a.step.outcome == Sent)
    requires channel.notifierId in w.notifiers
    requires a.CheckNow? && a.call.name == name ==> a.call.resolved.Some? && channel in a.call.resolved.value
    requires OnItsWay(s.pool, Key(name, t, w.cycleId(e), channel.id)) || Emits(w, s, a, name, e, t)
    ensures OnItsWay(Apply(w, s, a).pool, Key(name, t, w.cycleId(e), channel.id))
  {
    var k := Key(name, t, w.cycleId(e), channel.id);
    match a
    case TaskStep(step) => StepKeepsGoing(w.retry, s.pool, step, k);
    case CheckNow(c) =>
      if Checkable(w, s, c.name) {
        if OnItsWay(s.pool, k) {
          MoreTasksKeepGoing(s.pool, TasksFor(w, s, c), EndingOf(w, s, c).event, k);
        } else {
          var b :| 0 <= b < |c.resolved.value| && c.resolved.value[b] == channel;
          NewTaskIsBound(w, s, c, e, t, b);
        }
      }
    case _ =>
  }

  lemma {:induction false} EmittedIsOnItsWay(w: Wiring, actions: seq<Action>, name: string, channels: seq<Channel>,
                                             channel: Channel, e: Instant, t: nat)
    requires LegalRun(w, actions) && AlwaysDelivers(actions) && FixedChannels(actions, name, channels)
    requires channel in channels && channel.notifierId in w.notifiers && Emitted(w, actions, name, e, t)
    ensures OnItsWay(Replay(w, actions).pool, Key(name, t, w.cycleId(e), channel.id))
  {
    var before, a := actions[..|actions| - 1], actions[|actions| - 1];
    assert forall i :: 0 <= i < |before| ==> before[i] == actions[i];
    assert a == actions[|actions| - 1];
    if Emitted(w, before, name, e, t) {
      EmittedIsOnItsWay(w, before, name, channels, channel, e, t);
    }
    ActionKeepsGoing(w, Replay(w, before), a, name, e, t, channel);
  }

  /** What is recorded was emitted for this expiry, if the hash tells it from the others. */
  lemma RecordedIsEmitted(w: Wiring, actions: seq<Action>, k: Key, e: Instant)
    requires LegalRun(w, actions) && Separated(w, actions, k.domain, e) && k.cycle == w.cycleId(e)
    requires k in Replay(w, actions).pool.fired
    ensures Emitted(w, actions, k.domain, e, k.threshold)
  {
    KeysOriginate(w, actions);
    var x :| Emitted(w, actions, k.domain, x, k.threshold) && k.cycle == w.cycleId(x);
    EmittedIsReported(w, actions, k.domain, x, k.threshold);
  }

  /**
   Exactly once: with fixed thresholds and channels, a transport that delivers, and an expiry whose cycle is
   its own, a domain without live tasks has sent and announced the key of a usable channel once if its
   threshold is listed and was crossed at the latest check that reported the expiry, and never otherwise.
   */
  lemma DeliveredExactlyOnceIffCrossed(w: Wiring, actions: seq<Action>, name: string, thresholds: seq<nat>,
                                       channels: seq<Channel>, channel: Channel, e: Instant, t: nat)
    requires LegalRun(w, actions) && Fixed(actions, name, thresholds) && FixedChannels(actions, name, channels)
    requires AlwaysDelivers(actions) && Separated(w, actions, name, e) && Idle(Replay(w, actions).pool, name)
    requires channel in channels && channel.notifierId in w.notifiers
    ensures var pool, k := Replay(w, actions).pool, Key(name, t, w.cycleId(e), channel.id);
            var seen := Reported(w, actions, name, e);
            && (k in pool.fired <==> seen.Some? && t in thresholds && Crossed(e, t, seen.value))
            && Sends(pool, k) == Dispatches(pool, k) == One(seen.Some? && t in thresholds && Crossed(e, t, seen.value))
  {
    var pool, k := Replay(w, actions).pool, Key(name, t, w.cycleId(e), channel.id);
    EmittedIffCrossed(w, actions, name, thresholds, e, t);
    StoreMatchesEvents(w, actions, k);
    if Emitted(w, actions, name, e, t) {
      EmittedIsOnItsWay(w, actions, name, channels, channel, e, t);
      assert forall i :: 0 <= i < |pool.tasks| ==> !Bound(pool.tasks[i], k);
    }
    if k in pool.fired {
      RecordedIsEmitted(w, actions, k, e);
    }
  }
}
