/**
 The library facade as an object over its collaborators. Every method extends the run of actions that
 the object has been through, so what is proved of runs holds of every reachable object.
 */
module DomainWatcher {
  import opened Common
  import opened Monitoring
  import opened NotificationPolicies
  import opened RetryPolicies
  import opened CheckDomain
  import opened Delivery
  import opened WatchRuns
  import opened Watching

  /** An upper bound on the steps a task still takes. */
  function Remaining(policy: RetryPolicy, pc: Pc): nat {
    match pc
    case Start => 2 * Left(policy, 0) + 6
    case Sending(a) => 2 * Left(policy, a) + 4
    case Sleeping(a) => 2 * Left(policy, a) + 3
    case Recording => 2
    case Announcing => 1
    case Reporting(_) => 1
    case Done => 0
  }

  function Left(policy: RetryPolicy, attempt: nat): nat {
    if attempt < policy.maxAttempts then policy.maxAttempts - attempt else 0
  }

  function Work(policy: RetryPolicy, tasks: seq<Task>): nat {
    if tasks == [] then 0 else Work(policy, tasks[..|tasks| - 1]) + Remaining(policy, tasks[|tasks| - 1].pc)
  }

  lemma {:induction false} WorkUpdate(policy: RetryPolicy, tasks: seq<Task>, i: nat, t: Task)
    requires i < |tasks|
    ensures Work(policy, tasks[i := t]) + Remaining(policy, tasks[i].pc)
            == Work(policy, tasks) + Remaining(policy, t.pc)
  {
    var m := |tasks| - 1;
    if i < m {
      WorkUpdate(policy, tasks[..m], i, t);
      assert tasks[i := t][..m] == tasks[..m][i := t];
    } else {
      assert tasks[i := t][..m] == tasks[..m];
    }
  }

  /** A sleeping task has an attempt left. */
  predicate Rested(policy: RetryPolicy, tasks: seq<Task>) {
    forall i :: 0 <= i < |tasks| ==> tasks[i].pc.Sleeping? ==> tasks[i].pc.attempt < policy.maxAttempts
  }

  /** Every step of a live task brings the dispatch nearer to its end. */
  lemma StepsAreFinite(policy: RetryPolicy, pool: Pool, s: Step)
    requires policy.Valid() && Enabled(pool, s) && Rested(policy, pool.tasks)
    ensures Rested(policy, Advance(policy, pool, s).tasks)
    ensures Work(policy, Advance(policy, pool, s).tasks) < Work(policy, pool.tasks)
  {
    WorkUpdate(policy, pool.tasks, s.task, Advance(policy, pool, s).tasks[s.task]);
  }

  lemma NewTasksRested(w: Wiring, s: Watch, c: CheckCall)
    requires w.retry.Valid() && Rested(w.retry, s.pool.tasks)
    ensures Rested(w.retry, AfterCheck(w, s, c).pool.tasks)
  {
    if Checkable(w, s, c.name) && c.resolved.Some? {
      TaskListShape(AlertsOf(w, s, c), c.resolved.value, w.notifiers);
    }
  }

  lemma TasksAfterCheck(w: Wiring, s: Watch, c: CheckCall)
    requires w.retry.Valid()
    ensures AfterCheck(w, s, c).pool.tasks
         == if Checkable(w, s, c.name) && c.resolved.Some?
            then s.pool.tasks + TaskList(AlertsOf(w, s, c), c.resolved.value, w.notifiers) else s.pool.tasks
    ensures AfterCheck(w, s, c).pool.events
         == if Checkable(w, s, c.name) && EndingOf(w, s, c).event.Some?
            then s.pool.events + [EndingOf(w, s, c).event.value] else s.pool.events
  {
    assert s.pool.tasks + [] == s.pool.tasks && s.pool.events + [] == s.pool.events;
  }

  class DomainWatcher {
    const wiring: Wiring
    const repo: MonitoredDomainRepo
    const idempotency: IdempotencyStore
    const bus: EventLog<Event>
    const checker: CheckDomainUseCase
    var tasks: seq<Task>
    ghost var sent: seq<Key>
    ghost var clocks: map<string, Instant>
    ghost var actions: seq<Action>

    constructor (wiring: Wiring)
      requires wiring.retry.Valid()
      ensures Valid() && this.wiring == wiring && actions == []
      ensures fresh(repo) && fresh(idempotency) && fresh(bus)
    {
      this.wiring := wiring;
      var r := new MonitoredDomainRepo();
      var b := new EventLog<Event>();
      var i := new IdempotencyStore();
      var c := new CheckDomainUseCase(r, b, wiring.checkers, wiring.retry);
      repo, bus, idempotency, checker := r, b, i, c;
      tasks, sent, clocks, actions := [], [], map[], [];
    }

    ghost function State(): Watch
      reads this, repo, idempotency, bus
    {
      Watch(repo.store, Pool(tasks, idempotency.fired, sent, bus.events), clocks)
    }

    ghost predicate Valid()
      reads this, repo, idempotency, bus
    {
      && checker.repo == repo && checker.publisher == bus
      && checker.checkers == wiring.checkers && checker.retryPolicy == wiring.retry
      && LegalRun(wiring, actions)
      && State() == Replay(wiring, actions)
      && Rested(wiring.retry, tasks)
    }

    /** The arguments of `ensure_watching`; false stands for the exceptions it raises. */
    method EnsureWatching(d: Watched) returns (ok: bool)
      requires Valid()
      modifies this, repo
      ensures Valid() && actions == old(actions) + [Action.EnsureWatching(d)]
      ensures ok <==> Acceptable(wiring, d)
    {
      RowsStayValid(wiring, actions);
      AcceptsIff(wiring, State(), d);
      ReplayOneMore(wiring, actions, Action.EnsureWatching(d));
      actions := actions + [Action.EnsureWatching(d)];
      if d.checkerId !in wiring.checkers {
        return false;
      }
      var ids := ChannelIds(d.channels);
      if [] in ids || ids == [] {
        return false;
      }
      var existing := repo.Get(d.name);
      assert existing == Lookup(repo.store, d.name);
      var row := RowFor(d, existing);
      if !IsSchedule(d.cron) || !row.Valid() {
        return false;
      }
      repo.Update(row);
      return true;
    }

    method RemoveWatching(name: string)
      requires Valid()
      modifies this, repo
      ensures Valid() && actions == old(actions) + [Action.RemoveWatching(name)]
      ensures name !in repo.store && idempotency.fired == old(idempotency.fired)
    {
      ReplayOneMore(wiring, actions, Action.RemoveWatching(name));
      actions := actions + [Action.RemoveWatching(name)];
      repo.Remove(name);
    }

    /** The first half of `check_now`: run the check, then create one task per alert and channel. */
    method StartCheck(c: CheckCall) returns (response: Response)
      requires Valid() && LegalCheck(wiring, State(), c)
      modifies this, repo, bus
      ensures Valid() && actions == old(actions) + [Action.CheckNow(c)]
      ensures idempotency.fired == old(idempotency.fired)
      ensures response == ResponseTo(wiring, old(State()), c)
    {
      ghost var s := State();
      RowsStayValid(wiring, actions);
      ReplayOneMore(wiring, actions, Action.CheckNow(c));
      actions := actions + [Action.CheckNow(c)];
      var existing := repo.Get(c.name);
      var reply, calls, slept;
      reply, calls, slept := checker.Execute(c.name, c.outcomes, c.storedAt);
      response := Finished(reply);
      clocks := if Checkable(wiring, s, c.name) then clocks[c.name := c.dispatchedAt] else clocks;
      TasksAfterCheck(wiring, s, c);
      if reply.Answer? {
        assert Checkable(wiring, s, c.name) && reply == EndingOf(wiring, s, c).reply;
        var alerts := AlertsFor(wiring.cycleId, existing.value.thresholds, existing.value.lastCheck,
                                reply.result, c.dispatchedAt);
        assert alerts == AlertsOf(wiring, s, c);
        if c.resolved.Some? {
          tasks := tasks + TaskList(alerts, c.resolved.value, wiring.notifiers);
        } else if alerts != [] {
          response := ResolverRaised;
        }
      }
      NewTasksRested(wiring, s, c);
    }

    /** What the running task does to its surroundings up to its next await. */
    method TakeStep(i: nat, outcome: SendResult, now: Instant)
      requires i < |tasks| && Live(tasks[i])
      modifies this`tasks, this`sent, idempotency, bus
      ensures Pool(tasks, idempotency.fired, sent, bus.events)
           == Advance(wiring.retry, old(Pool(tasks, idempotency.fired, sent, bus.events)), Step(i, outcome, now))
    {
      var t := tasks[i];
      match t.pc {
        case Start =>
          var seen := idempotency.AlreadyFired(t.key);
          tasks := tasks[i := t.(pc := if seen then Done else if !t.known then Reporting(1) else Sending(1))];
        case Sending(a) =>
          tasks := tasks[i := t.(pc := AfterSend(wiring.retry, a, outcome))];
          sent := if outcome == Sent then sent + [t.key] else sent;
        case Sleeping(a) =>
          tasks := tasks[i := t.(pc := Sending(a + 1))];
        case Recording =>
          idempotency.Record(t.key, now);
          tasks := tasks[i := t.(pc := Announcing)];
        case Announcing =>
          bus.Publish(NotificationDispatched(t.key));
          tasks := tasks[i := t.(pc := Done)];
        case Reporting(n) =>
          bus.Publish(NotificationFailed(t.key, n));
          tasks := tasks[i := t.(pc := Done)];
        case Done =>
      }
      assert old(bus.events) + [] == old(bus.events);
    }

    /** One task runs up to its next await. */
    method RunTask(i: nat, outcome: SendResult, now: Instant)
      requires Valid() && i < |tasks| && Live(tasks[i])
      modifies this, idempotency, bus
      ensures Valid() && actions == old(actions) + [TaskStep(Step(i, outcome, now))]
      ensures Work(wiring.retry, tasks) < old(Work(wiring.retry, tasks))
      ensures clocks == old(clocks)
    {
      ghost var s := Step(i, outcome, now);
      StepsAreFinite(wiring.retry, State().pool, s);
      ReplayOneMore(wiring, actions, TaskStep(s));
      actions := actions + [TaskStep(s)];
      TakeStep(i, outcome, now);
    }

    /**
     `check_now` as a whole: the check, then all its delivery tasks, scheduled in any order and with
     any answers of the transport, until none is left.
     */
    method CheckNow(c: CheckCall) returns (response: Response)
      requires Valid() && LegalCheck(wiring, State(), c)
      modifies this, repo, bus, idempotency
      ensures Valid()
      ensures old(actions) + [Action.CheckNow(c)] <= actions
      ensures response == ResponseTo(wiring, old(State()), c)
      ensures forall i :: 0 <= i < |tasks| ==> !Live(tasks[i])
      ensures forall k :: Sends(State().pool, k) == Dispatches(State().pool, k)
              == if k in idempotency.fired then 1 else 0
      ensures forall k :: k in old(idempotency.fired) ==> k in idempotency.fired
    {
      ghost var before := idempotency.fired;
      response := StartCheck(c);
      while exists i :: 0 <= i < |tasks| && Live(tasks[i])
        invariant Valid() && old(actions) + [Action.CheckNow(c)] <= actions
        invariant forall k :: k in before ==> k in idempotency.fired
        decreases Work(wiring.retry, tasks)
      {
        var i: nat :| i < |tasks| && Live(tasks[i]);
        var outcome: SendResult := *;
        var now: Instant := *;
        RunTask(i, outcome, now);
      }
      forall k
        ensures Sends(State().pool, k) == Dispatches(State().pool, k) == if k in idempotency.fired then 1 else 0
      {
        StoreMatchesEvents(wiring, actions, k);
      }
    }
  }
}
