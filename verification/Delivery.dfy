/**
 Delivering alerts: one asynchronous task per alert and channel, interleaved at every await. The
 tasks share the idempotency store, the transport and the event log; a task looks its key up once,
 sends with retries, records the key and announces the delivery.
 */
module Delivery {
  import opened Common
  import opened Monitoring
  import opened NotificationPolicies
  import opened RetryPolicies

  datatype Channel = Channel(id: string, notifierId: string)

  /** How one call of a notifier ends. `Crashed` is any exception that is not a notification error. */
  datatype SendResult = Sent | DeliveryFailed | PermanentlyFailed | Crashed

  /** What the task does next. */
  datatype Pc =
    | Start
    | Sending(attempt: nat)
    | Sleeping(attempt: nat)
    | Recording
    | Announcing
    | Reporting(attempts: nat)
    | Done

  datatype Task = Task(key: Key, known: bool, pc: Pc)

  datatype Pool = Pool(tasks: seq<Task>, fired: map<Key, Instant>, sent: seq<Key>, events: seq<Event>)

  /** One task runs up to its next await; `outcome` is the transport's answer when it is sending. */
  datatype Step = Step(task: nat, outcome: SendResult, now: Instant)

  predicate Live(t: Task) { t.pc != Done }

  predicate Enabled(pool: Pool, s: Step) {
    s.task < |pool.tasks| && Live(pool.tasks[s.task])
  }

  function AfterSend(policy: RetryPolicy, attempt: nat, outcome: SendResult): Pc {
    match outcome
    case Sent => Recording
    case DeliveryFailed => if attempt < policy.maxAttempts then Sleeping(attempt) else Reporting(attempt)
    case PermanentlyFailed => Reporting(attempt)
    case Crashed => Done
  }

  function NextPc(policy: RetryPolicy, t: Task, fired: map<Key, Instant>, outcome: SendResult): Pc {
    match t.pc
    case Start => if t.key in fired then Done else if !t.known then Reporting(1) else Sending(1)
    case Sending(a) => AfterSend(policy, a, outcome)
    case Sleeping(a) => Sending(a + 1)
    case Recording => Announcing
    case Announcing => Done
    case Reporting(_) => Done
    case Done => Done
  }

  /** A step of a task that has ended, or does not exist, changes nothing. */
  function Advance(policy: RetryPolicy, pool: Pool, s: Step): Pool {
    if !Enabled(pool, s) then pool else
    var t := pool.tasks[s.task];
    Pool(
      pool.tasks[s.task := t.(pc := NextPc(policy, t, pool.fired, s.outcome))],
      if t.pc == Recording then pool.fired[t.key := s.now] else pool.fired,
      if t.pc.Sending? && s.outcome == Sent then pool.sent + [t.key] else pool.sent,
      pool.events
      + (match t.pc
         case Announcing => [NotificationDispatched(t.key)]
         case Reporting(n) => [NotificationFailed(t.key, n)]
         case _ => []))
  }

  /** A schedule is any interleaving of the tasks, with any answers of the transport. */
  function Run(policy: RetryPolicy, pool: Pool, steps: seq<Step>): Pool {
    if steps == [] then pool
    else Advance(policy, Run(policy, pool, steps[..|steps| - 1]), steps[|steps| - 1])
  }

  lemma RunOneMore(policy: RetryPolicy, pool: Pool, steps: seq<Step>, s: Step)
    ensures Run(policy, pool, steps + [s]) == Advance(policy, Run(policy, pool, steps), s)
  {
    assert (steps + [s])[..|steps + [s]| - 1] == steps;
  }

  // ------------------------------------------------- the tasks of one dispatch

  function TasksOf(alert: Alert, channels: seq<Channel>, notifiers: set<string>): seq<Task> {
    seq(|channels|, i requires 0 <= i < |channels| =>
      Task(Key(alert.domain, alert.threshold, alert.cycle, channels[i].id), channels[i].notifierId in notifiers, Start))
  }

  function TaskList(alerts: seq<Alert>, channels: seq<Channel>, notifiers: set<string>): seq<Task> {
    if alerts == [] then []
    else TaskList(alerts[..|alerts| - 1], channels, notifiers) + TasksOf(alerts[|alerts| - 1], channels, notifiers)
  }

  // ------------------------------------------------------------------ counting

  function IsKey(k: Key): Key -> bool { x => x == k }

  function IsDispatchOf(k: Key): Event -> bool { e => e == NotificationDispatched(k) }

  function Awaits(k: Key, pc: Pc): Task -> bool { (t: Task) => t.key == k && t.pc == pc }

  /** The task may still send: its notifier exists and the store will not stop it. */
  function Contends(k: Key, fired: map<Key, Instant>): Task -> bool {
    (t: Task) => t.key == k && (t.pc.Sending? || t.pc.Sleeping? || (t.pc == Start && t.known && k !in fired))
  }

  /** How often the key was sent. */
  function Sends(pool: Pool, k: Key): nat { CountIf(pool.sent, IsKey(k)) }

  function Dispatches(pool: Pool, k: Key): nat { CountIf(pool.events, IsDispatchOf(k)) }

  /** How often the key was sent, plus how often it may yet be sent. */
  function Potential(pool: Pool, k: Key): nat {
    Sends(pool, k) + CountIf(pool.tasks, Contends(k, pool.fired))
  }

  /** Every send is recorded and announced once, and the store holds the keys that were. */
  ghost predicate Balanced(pool: Pool, k: Key) {
    && Sends(pool, k) == CountIf(pool.tasks, Awaits(k, Recording)) + CountIf(pool.tasks, Awaits(k, Announcing))
                         + Dispatches(pool, k)
    && (k in pool.fired <==> CountIf(pool.tasks, Awaits(k, Announcing)) + Dispatches(pool, k) > 0)
  }

  lemma {:induction false} CountNothing<T>(s: seq<T>, p: T -> bool)
    requires forall i :: 0 <= i < |s| ==> !p(s[i])
    ensures CountIf(s, p) == 0
  {
    CountIfPositive(s, p);
  }

  // ---------------------------------------------------- what every step keeps

  lemma AwaitsAfter(policy: RetryPolicy, pool: Pool, s: Step, k: Key, pc: Pc)
    requires Enabled(pool, s)
    ensures var t := pool.tasks[s.task];
            CountIf(Advance(policy, pool, s).tasks, Awaits(k, pc)) + One(t.key == k && t.pc == pc)
              == CountIf(pool.tasks, Awaits(k, pc))
                 + One(t.key == k && NextPc(policy, t, pool.fired, s.outcome) == pc)
  {
    CountIfUpdate(pool.tasks, s.task, Advance(policy, pool, s).tasks[s.task], Awaits(k, pc));
  }

  lemma SendsAfter(policy: RetryPolicy, pool: Pool, s: Step, k: Key)
    requires Enabled(pool, s)
    ensures var t := pool.tasks[s.task];
            Sends(Advance(policy, pool, s), k)
              == Sends(pool, k) + One(t.key == k && t.pc.Sending? && s.outcome == Sent)
  {
    CountAppendOne(pool.sent, pool.tasks[s.task].key, IsKey(k));
  }

  /** A task that sends stops contending, and no other step makes it contend. */
  lemma TaskPotential(policy: RetryPolicy, t: Task, fired: map<Key, Instant>, outcome: SendResult, k: Key)
    ensures var after := t.(pc := NextPc(policy, t, fired, outcome));
            One(Contends(k, fired)(after)) + One(t.key == k && t.pc.Sending? && outcome == Sent)
              <= One(Contends(k, fired)(t))
  {
  }

  /** No step, of any task, with any answer, raises the number of times a key can be sent. */
  lemma PotentialNeverGrows(policy: RetryPolicy, pool: Pool, s: Step, k: Key)
    ensures Potential(Advance(policy, pool, s), k) <= Potential(pool, k)
  {
    if Enabled(pool, s) {
      var t, next := pool.tasks[s.task], Advance(policy, pool, s);
      SendsAfter(policy, pool, s, k);
      TaskPotential(policy, t, pool.fired, s.outcome, k);
      CountIfUpdate(pool.tasks, s.task, next.tasks[s.task], Contends(k, pool.fired));
      CountIfMonotone(next.tasks, Contends(k, next.fired), Contends(k, pool.fired));
    }
  }

  lemma DispatchesAfter(policy: RetryPolicy, pool: Pool, s: Step, k: Key)
    requires Enabled(pool, s)
    ensures var t := pool.tasks[s.task];
            Dispatches(Advance(policy, pool, s), k) == Dispatches(pool, k) + One(t.key == k && t.pc == Announcing)
  {
    var t := pool.tasks[s.task];
    if t.pc.Announcing? {
      CountAppendOne(pool.events, NotificationDispatched(t.key), IsDispatchOf(k));
    } else if t.pc.Reporting? {
      CountAppendOne(pool.events, NotificationFailed(t.key, t.pc.attempts), IsDispatchOf(k));
    } else {
      assert pool.events + [] == pool.events;
    }
  }

  lemma BalanceKept(policy: RetryPolicy, pool: Pool, s: Step, k: Key)
    requires Balanced(pool, k)
    ensures Balanced(Advance(policy, pool, s), k)
  {
    if Enabled(pool, s) {
      AwaitsAfter(policy, pool, s, k, Recording);
      AwaitsAfter(policy, pool, s, k, Announcing);
      SendsAfter(policy, pool, s, k);
      DispatchesAfter(policy, pool, s, k);
      CountIfPositive(pool.tasks, Awaits(k, Announcing));
      assert Awaits(k, Announcing)(pool.tasks[s.task])
          <==> pool.tasks[s.task] == Task(k, pool.tasks[s.task].known, Announcing);
    }
  }

  lemma {:induction false} RunKeepsPotential(policy: RetryPolicy, pool: Pool, steps: seq<Step>, k: Key)
    ensures Potential(Run(policy, pool, steps), k) <= Potential(pool, k)
  {
    if steps != [] {
      RunKeepsPotential(policy, pool, steps[..|steps| - 1], k);
      PotentialNeverGrows(policy, Run(policy, pool, steps[..|steps| - 1]), steps[|steps| - 1], k);
    }
  }

  lemma {:induction false} RunKeepsBalance(policy: RetryPolicy, pool: Pool, steps: seq<Step>, k: Key)
    requires Balanced(pool, k)
    ensures Balanced(Run(policy, pool, steps), k)
  {
    if steps != [] {
      RunKeepsBalance(policy, pool, steps[..|steps| - 1], k);
      BalanceKept(policy, Run(policy, pool, steps[..|steps| - 1]), steps[|steps| - 1], k);
    }
  }

  /**
   When no task is live, a key has been sent once for every announcement, and the store holds exactly
   the announced keys.
   */
  lemma QuietBalance(pool: Pool, k: Key)
    requires Balanced(pool, k)
    requires forall i :: 0 <= i < |pool.tasks| ==> !Live(pool.tasks[i]) || pool.tasks[i].key != k
    ensures Sends(pool, k) == Dispatches(pool, k)
    ensures k in pool.fired <==> Dispatches(pool, k) > 0
  {
    CountNothing(pool.tasks, Awaits(k, Recording));
    CountNothing(pool.tasks, Awaits(k, Announcing));
  }

  // --------------------------------------------------------------- at most once

  /** A pool of freshly created tasks over a store that holds exactly the keys sent so far. */
  ghost predicate Fresh(pool: Pool, k: Key) {
    && (forall i :: 0 <= i < |pool.tasks| ==> pool.tasks[i].pc == Start)
    && Sends(pool, k) == (if k in pool.fired then 1 else 0)
  }

  /** Two tasks that can both send the key. */
  ghost predicate Rivals(pool: Pool, k: Key, i: nat, j: nat) {
    i < j < |pool.tasks| && Contends(k, pool.fired)(pool.tasks[i]) && Contends(k, pool.fired)(pool.tasks[j])
  }

  lemma {:induction false} RivalsExist(tasks: seq<Task>, p: Task -> bool) returns (i: nat, j: nat)
    requires CountIf(tasks, p) >= 2
    ensures i < j < |tasks| && p(tasks[i]) && p(tasks[j])
  {
    var m := |tasks| - 1;
    if p(tasks[m]) {
      CountIfPositive(tasks[..m], p);
      j := m;
      i :| 0 <= i < m && p(tasks[..m][i]);
    } else {
      i, j := RivalsExist(tasks[..m], p);
    }
  }

  /** Two rivals are enough: both look the key up before either records it. */
  lemma RivalsSendTwice(policy: RetryPolicy, pool: Pool, k: Key, i: nat, j: nat) returns (steps: seq<Step>)
    requires Fresh(pool, k) && Rivals(pool, k, i, j)
    ensures Sends(Run(policy, pool, steps), k) >= 2
  {
    var a, b := Step(i, Sent, 0.0), Step(j, Sent, 0.0);
    var p1 := Advance(policy, pool, a);
    var p2 := Advance(policy, p1, b);
    var p3 := Advance(policy, p2, a);
    var p4 := Advance(policy, p3, b);
    RunOneMore(policy, pool, [], a);
    RunOneMore(policy, pool, [] + [a], b);
    RunOneMore(policy, pool, [] + [a] + [b], a);
    RunOneMore(policy, pool, [] + [a] + [b] + [a], b);
    steps := [] + [a] + [b] + [a] + [b];
    assert p4.sent == pool.sent + [k] + [k];
    CountAppendOne(pool.sent, k, IsKey(k));
    CountAppendOne(pool.sent + [k], k, IsKey(k));
  }

  /**
   The exact condition for at-most-once delivery: over all interleavings and all answers of the
   transport, a key is sent at most once if and only if no two tasks of the dispatch contend for it.
   */
  lemma AtMostOnceIff(policy: RetryPolicy, pool: Pool, k: Key)
    requires Fresh(pool, k)
    ensures (forall steps :: Sends(Run(policy, pool, steps), k) <= 1)
       <==> !exists i, j :: Rivals(pool, k, i, j)
  {
    if i, j :| Rivals(pool, k, i, j) {
      var steps := RivalsSendTwice(policy, pool, k, i, j);
    } else {
      if CountIf(pool.tasks, Contends(k, pool.fired)) >= 2 {
        var i, j := RivalsExist(pool.tasks, Contends(k, pool.fired));
        assert Rivals(pool, k, i, j);
      }
      FiredStopsAll(pool, k);
      forall steps: seq<Step>
        ensures Sends(Run(policy, pool, steps), k) <= 1
      {
        RunKeepsPotential(policy, pool, steps, k);
      }
    }
  }

  lemma FiredStopsAll(pool: Pool, k: Key)
    requires Fresh(pool, k)
    ensures k in pool.fired ==> CountIf(pool.tasks, Contends(k, pool.fired)) == 0
  {
    if k in pool.fired {
      CountNothing(pool.tasks, Contends(k, pool.fired));
    }
  }

  // ---------------------------------------------- the tasks of one dispatch

  /** No two channels with a known notifier share an id. */
  ghost predicate DistinctIds(channels: seq<Channel>, notifiers: set<string>) {
    forall a, b :: 0 <= a < b < |channels| && channels[a].notifierId in notifiers && channels[b].notifierId in notifiers
                   ==> channels[a].id != channels[b].id
  }

  ghost predicate DistinctThresholds(alerts: seq<Alert>) {
    forall a, b :: 0 <= a < b < |alerts| ==> alerts[a].threshold != alerts[b].threshold
  }

  lemma {:induction false} AtMostOneMatch<T>(s: seq<T>, p: T -> bool)
    requires forall a, b :: 0 <= a < b < |s| ==> !(p(s[a]) && p(s[b]))
    ensures CountIf(s, p) <= 1
  {
    if s != [] {
      var m := |s| - 1;
      AtMostOneMatch(s[..m], p);
      if p(s[m]) {
        forall a | 0 <= a < m
          ensures !p(s[..m][a])
        {
          assert s[..m][a] == s[a];
        }
        CountIfPositive(s[..m], p);
      }
    }
  }

  /** With distinct ids of usable channels and distinct thresholds a dispatch has one task per key. */
  lemma {:induction false} OneTaskPerKey(alerts: seq<Alert>, channels: seq<Channel>, notifiers: set<string>,
                                         k: Key, fired: map<Key, Instant>)
    requires DistinctIds(channels, notifiers) && DistinctThresholds(alerts)
    ensures CountIf(TaskList(alerts, channels, notifiers), Contends(k, fired)) <= 1
    ensures (forall a :: 0 <= a < |alerts| ==> alerts[a].threshold != k.threshold) ==>
              CountIf(TaskList(alerts, channels, notifiers), Contends(k, fired)) == 0
  {
    if alerts != [] {
      var m := |alerts| - 1;
      var row := TasksOf(alerts[m], channels, notifiers);
      OneTaskPerKey(alerts[..m], channels, notifiers, k, fired);
      CountIfAppend(TaskList(alerts[..m], channels, notifiers), row, Contends(k, fired));
      if alerts[m].threshold == k.threshold {
        forall a, b | 0 <= a < b < |row|
          ensures !(Contends(k, fired)(row[a]) && Contends(k, fired)(row[b]))
        {
          assert row[a].known && row[b].known ==> channels[a].id != channels[b].id;
        }
        AtMostOneMatch(row, Contends(k, fired));
        assert forall a :: 0 <= a < m ==> alerts[..m][a].threshold != k.threshold;
      } else {
        CountNothing(row, Contends(k, fired));
      }
    }
  }

  /** The task delivers this alert. */
  predicate Delivers(t: Task, a: Alert) {
    t.key.domain == a.domain && t.key.threshold == a.threshold && t.key.cycle == a.cycle
  }

  predicate DeliversOne(t: Task, alerts: seq<Alert>) {
    exists a :: 0 <= a < |alerts| && Delivers(t, alerts[a])
  }

  /** The tasks of a dispatch are at their start, and each delivers one of its alerts. */
  lemma {:induction false} TaskListShape(alerts: seq<Alert>, channels: seq<Channel>, notifiers: set<string>)
    ensures forall t :: t in TaskList(alerts, channels, notifiers) ==> t.pc == Start && DeliversOne(t, alerts)
  {
    if alerts != [] {
      var m := |alerts| - 1;
      var before := TaskList(alerts[..m], channels, notifiers);
      TaskListShape(alerts[..m], channels, notifiers);
      forall t | t in TaskList(alerts, channels, notifiers)
        ensures t.pc == Start && DeliversOne(t, alerts)
      {
        if t in before {
          var a :| 0 <= a < m && Delivers(t, alerts[..m][a]);
          assert Delivers(t, alerts[a]);
        } else {
          assert t in TasksOf(alerts[m], channels, notifiers) && Delivers(t, alerts[m]);
        }
      }
    }
  }


  /** Every alert has its task for every channel. */
  lemma {:induction false} TaskListHas(alerts: seq<Alert>, channels: seq<Channel>, notifiers: set<string>, a: nat,
      b: nat)
    requires a < |alerts| && b < |channels|
    ensures TasksOf(alerts[a], channels, notifiers)[b] in TaskList(alerts, channels, notifiers)
  {
    var m := |alerts| - 1;
    if a < m {
      TaskListHas(alerts[..m], channels, notifiers, a, b);
    }
  }

  /** The pool in which a dispatch over an empty store starts. */
  function FirstDispatch(alerts: seq<Alert>, channels: seq<Channel>, notifiers: set<string>): Pool {
    Pool(TaskList(alerts, channels, notifiers), map[], [], [])
  }

  lemma FirstDispatchIsFresh(alerts: seq<Alert>, channels: seq<Channel>, notifiers: set<string>, k: Key)
    ensures Fresh(FirstDispatch(alerts, channels, notifiers), k)
  {
    TaskListShape(alerts, channels, notifiers);
  }

  /** No task is live. */
  predicate Ended(pool: Pool) {
    forall i :: 0 <= i < |pool.tasks| ==> !Live(pool.tasks[i])
  }

  /**
   A dispatch run to its end, in any order and with any answers: every key was sent exactly as often as
   it was announced, and the store holds exactly the announced keys, whatever the channel ids.
   */
  lemma DispatchSettles(policy: RetryPolicy, alerts: seq<Alert>, channels: seq<Channel>, notifiers: set<string>,
                        steps: seq<Step>, k: Key)
    requires Ended(Run(policy, FirstDispatch(alerts, channels, notifiers), steps))
    ensures var end := Run(policy, FirstDispatch(alerts, channels, notifiers), steps);
            Sends(end, k) == Dispatches(end, k) && (k in end.fired <==> Dispatches(end, k) > 0)
  {
    var start := FirstDispatch(alerts, channels, notifiers);
    TaskListShape(alerts, channels, notifiers);
    CountNothing(start.tasks, Awaits(k, Recording));
    CountNothing(start.tasks, Awaits(k, Announcing));
    RunKeepsBalance(policy, start, steps, k);
    QuietBalance(Run(policy, start, steps), k);
  }

  lemma SharedIdMakesRivals(alerts: seq<Alert>, channels: seq<Channel>, notifiers: set<string>, a: nat, b: nat)
    returns (k: Key, i: nat, j: nat)
    requires alerts != [] && a < b < |channels| && channels[a].id == channels[b].id
    requires channels[a].notifierId in notifiers && channels[b].notifierId in notifiers
    ensures Rivals(FirstDispatch(alerts, channels, notifiers), k, i, j)
  {
    var last := alerts[|alerts| - 1];
    var before, row := TaskList(alerts[..|alerts| - 1], channels, notifiers), TasksOf(last, channels, notifiers);
    k, i, j := Key(last.domain, last.threshold, last.cycle, channels[a].id), |before| + a, |before| + b;
    var tasks := TaskList(alerts, channels, notifiers);
    assert tasks == before + row;
    assert tasks[i] == row[a] && tasks[j] == row[b];
  }

  /**
   The condition as a caller can check it: a dispatch sends every key at most once, under all
   interleavings and answers, if and only if no two channels with a known notifier share an id.
   */
  lemma DispatchAtMostOnceIff(policy: RetryPolicy, alerts: seq<Alert>, channels: seq<Channel>, notifiers: set<string>)
    requires alerts != [] && DistinctThresholds(alerts)
    ensures (forall k, steps :: Sends(Run(policy, FirstDispatch(alerts, channels, notifiers), steps), k) <= 1)
       <==> DistinctIds(channels, notifiers)
  {
    var pool := FirstDispatch(alerts, channels, notifiers);
    if DistinctIds(channels, notifiers) {
      forall k, steps
        ensures Sends(Run(policy, pool, steps), k) <= 1
      {
        OneTaskPerKey(alerts, channels, notifiers, k, map[]);
        RunKeepsPotential(policy, pool, steps, k);
      }
    } else {
      var a, b :| 0 <= a < b < |channels| && channels[a].notifierId in notifiers && channels[b].notifierId in notifiers
                  && channels[a].id == channels[b].id;
      var k, i, j := SharedIdMakesRivals(alerts, channels, notifiers, a, b);
      FirstDispatchIsFresh(alerts, channels, notifiers, k);
      var steps := RivalsSendTwice(policy, pool, k, i, j);
    }
  }

  /**
   The channel ids of a watched domain need not be distinct, and then the property fails: one alert
   on two channels of the same id and a known notifier can be sent twice under one key.
   */
  lemma SameChannelTwiceSendsTwice(policy: RetryPolicy, alert: Alert, id: string, notifier: string)
    returns (steps: seq<Step>)
    ensures var channel := Channel(id, notifier);
            var pool := Pool(TaskList([alert], [channel, channel], {notifier}), map[], [], []);
            var k := Key(alert.domain, alert.threshold, alert.cycle, id);
            Sends(Run(policy, pool, steps), k) >= 2
  {
    var channel := Channel(id, notifier);
    var tasks := TasksOf(alert, [channel, channel], {notifier});
    assert [alert][..0] == [] && TaskList([alert], [channel, channel], {notifier}) == tasks;
    var pool := Pool(tasks, map[], [], []);
    var k := Key(alert.domain, alert.threshold, alert.cycle, id);
    assert Rivals(pool, k, 0, 1);
    steps := RivalsSendTwice(policy, pool, k, 0, 1);
  }

  // ----------------------------------------------------------- attempts and waits

  /** The answers that task `i` got from its notifier in this schedule, in order. */
  function Answers(policy: RetryPolicy, pool: Pool, steps: seq<Step>, i: nat): seq<SendResult> {
    if steps == [] then []
    else
      var before, s := steps[..|steps| - 1], steps[|steps| - 1];
      var now := Run(policy, pool, before);
      Answers(policy, pool, before, i)
      + if s.task == i && i < |now.tasks| && now.tasks[i].pc.Sending? then [s.outcome] else []
  }

  /** A task that got these answers has to try again after each: all are transient failures. */
  predicate AllTransient(answers: seq<SendResult>) {
    forall j :: 0 <= j < |answers| ==> answers[j] == DeliveryFailed
  }

  /** After these answers a task gives up: a permanent failure, or the last transient one allowed. */
  predicate GivesUp(policy: RetryPolicy, answers: seq<SendResult>) {
    answers != [] &&
    (answers[|answers| - 1] == PermanentlyFailed
     || (answers[|answers| - 1] == DeliveryFailed && |answers| == policy.maxAttempts))
  }

  /** Where a task can be, given the answers so far. Every answer but the last was a transient failure. */
  predicate Follows(policy: RetryPolicy, known: bool, pc: Pc, answers: seq<SendResult>) {
    && |answers| <= policy.maxAttempts
    && (answers != [] ==> known && AllTransient(answers[..|answers| - 1]))
    && match pc
       case Start => answers == []
       case Sending(a) => known && a == |answers| + 1 <= policy.maxAttempts && AllTransient(answers)
       case Sleeping(a) => known && 1 <= a == |answers| < policy.maxAttempts && AllTransient(answers)
       case Recording => answers != [] && answers[|answers| - 1] == Sent
       case Announcing => answers != [] && answers[|answers| - 1] == Sent
       case Reporting(n) => if known then n == |answers| && GivesUp(policy, answers) else n == 1
       case Done =>
         answers == [] || answers[|answers| - 1] == Sent || answers[|answers| - 1] == Crashed
         || GivesUp(policy, answers)
  }

  lemma AnswerMore(answers: seq<SendResult>, a: SendResult)
    ensures (answers + [a])[..|answers + [a]| - 1] == answers && (answers + [a])[|answers|] == a
    ensures AllTransient(answers) && a == DeliveryFailed ==> AllTransient(answers + [a])
  {
  }

  /** One step of the task itself. */
  lemma FollowsStep(policy: RetryPolicy, t: Task, fired: map<Key, Instant>, answers: seq<SendResult>, a: SendResult)
    requires policy.Valid() && Follows(policy, t.known, t.pc, answers)
    ensures Follows(policy, t.known, NextPc(policy, t, fired, a), if t.pc.Sending? then answers + [a] else answers)
  {
    if t.pc.Sending? {
      SendingStep(policy, t.pc.attempt, answers, a);
    }
  }

  lemma SendingStep(policy: RetryPolicy, attempt: nat, answers: seq<SendResult>, a: SendResult)
    requires policy.Valid() && Follows(policy, true, Sending(attempt), answers)
    ensures Follows(policy, true, AfterSend(policy, attempt, a), answers + [a])
  {
    AnswerMore(answers, a);
  }

  /** One step of a schedule, seen from task `i`. */
  lemma FollowsAdvance(policy: RetryPolicy, now: Pool, s: Step, i: nat, answers: seq<SendResult>)
    requires policy.Valid() && i < |now.tasks| && Follows(policy, now.tasks[i].known, now.tasks[i].pc, answers)
    ensures var next := Advance(policy, now, s);
            && |next.tasks| == |now.tasks|
            && next.tasks[i].key == now.tasks[i].key && next.tasks[i].known == now.tasks[i].known
            && Follows(policy, next.tasks[i].known, next.tasks[i].pc,
                       if s.task == i && now.tasks[i].pc.Sending? then answers + [s.outcome] else answers)
  {
    if s.task == i {
      FollowsStep(policy, now.tasks[i], now.fired, answers, s.outcome);
    }
  }

  /**
   In every schedule, what the notifier answered decides where a task is: it goes on after a transient
   failure while attempts are left, records a success, gives up after a permanent failure or the last
   transient one allowed, and calls its notifier at most `maxAttempts` times.
   */
  lemma {:induction false} AnswersDecide(policy: RetryPolicy, pool: Pool, steps: seq<Step>, i: nat)
    requires policy.Valid() && i < |pool.tasks| && pool.tasks[i].pc == Start
    ensures var now := Run(policy, pool, steps);
            && |now.tasks| == |pool.tasks|
            && now.tasks[i].key == pool.tasks[i].key && now.tasks[i].known == pool.tasks[i].known
            && Follows(policy, now.tasks[i].known, now.tasks[i].pc, Answers(policy, pool, steps, i))
  {
    if steps != [] {
      var before, s := steps[..|steps| - 1], steps[|steps| - 1];
      var now, answers := Run(policy, pool, before), Answers(policy, pool, before, i);
      AnswersDecide(policy, pool, before, i);
      FollowsAdvance(policy, now, s, i, answers);
      assert answers + [] == answers;
    }
  }

  /** So whenever a task sleeps, the policy has a delay for its attempt. */
  lemma AttemptsAreBounded(policy: RetryPolicy, pool: Pool, steps: seq<Step>, i: nat)
    requires policy.Valid() && i < |pool.tasks| && pool.tasks[i].pc == Start
    ensures |Run(policy, pool, steps).tasks| == |pool.tasks|
    ensures |Answers(policy, pool, steps, i)| <= policy.maxAttempts
    ensures var pc := Run(policy, pool, steps).tasks[i].pc;
            pc.Sleeping? ==> DelayFor(policy, pc.attempt).Ok?
  {
    AnswersDecide(policy, pool, steps, i);
  }

  /** What a task that is done has left behind, by the answers it got. */
  predicate Settled(policy: RetryPolicy, t: Task, answers: seq<SendResult>, fired: map<Key, Instant>,
                    events: seq<Event>)
  {
    if answers == [] then t.key in fired || (!t.known && NotificationFailed(t.key, 1) in events)
    else if answers[|answers| - 1] == Sent then t.key in fired && NotificationDispatched(t.key) in events
    else GivesUp(policy, answers) ==> NotificationFailed(t.key, |answers|) in events
  }

  /** A task that sent its alert has recorded it before it is announced. */
  predicate OnTheWay(policy: RetryPolicy, t: Task, answers: seq<SendResult>, fired: map<Key, Instant>,
                     events: seq<Event>)
  {
    && (t.pc == Done ==> Settled(policy, t, answers, fired, events))
    && (t.pc == Announcing ==> t.key in fired)
  }

  lemma LogGrows(policy: RetryPolicy, pool: Pool, s: Step)
    ensures forall e :: e in pool.events ==> e in Advance(policy, pool, s).events
    ensures forall k :: k in pool.fired ==> k in Advance(policy, pool, s).fired
  {
  }

  lemma OnTheWayStep(policy: RetryPolicy, pool: Pool, s: Step, answers: seq<SendResult>)
    requires policy.Valid() && Enabled(pool, s)
    requires var t := pool.tasks[s.task];
             Follows(policy, t.known, t.pc, answers) && OnTheWay(policy, t, answers, pool.fired, pool.events)
    ensures var t, next := pool.tasks[s.task], Advance(policy, pool, s);
            OnTheWay(policy, next.tasks[s.task], if t.pc.Sending? then answers + [s.outcome] else answers,
                     next.fired, next.events)
  {
    var t, next := pool.tasks[s.task], Advance(policy, pool, s);
    AnswerMore(answers, s.outcome);
    if t.pc.Announcing? {
      assert next.events[|pool.events|] == NotificationDispatched(t.key);
    } else if t.pc.Reporting? {
      assert next.events[|pool.events|] == NotificationFailed(t.key, t.pc.attempts);
    }
  }

  /**
   A task that is done has told how it went, in every schedule: its key is recorded and announced if the
   notifier took the alert, its failure is announced with the number of attempts if it gave up, and without
   any answer its key was in the store already or its notifier is unknown.
   */
  lemma {:induction false} DoneMeansTold(policy: RetryPolicy, pool: Pool, steps: seq<Step>, i: nat)
    requires policy.Valid() && i < |pool.tasks| && pool.tasks[i].pc == Start
    ensures var now := Run(policy, pool, steps);
            && |now.tasks| == |pool.tasks|
            && OnTheWay(policy, now.tasks[i], Answers(policy, pool, steps, i), now.fired, now.events)
  {
    if steps != [] {
      var before, s := steps[..|steps| - 1], steps[|steps| - 1];
      var now, answers := Run(policy, pool, before), Answers(policy, pool, before, i);
      DoneMeansTold(policy, pool, before, i);
      AnswersDecide(policy, pool, before, i);
      LogGrows(policy, now, s);
      assert answers + [] == answers;
      if s.task == i && Enabled(now, s) {
        OnTheWayStep(policy, now, s, answers);
      }
    }
  }

  /** Some task with this key has given up after this many attempts. */
  ghost predicate GaveUp(policy: RetryPolicy, pool: Pool, steps: seq<Step>, k: Key, n: int) {
    exists i: nat :: i < |pool.tasks| && pool.tasks[i].key == k && GaveUpAt(policy, pool, steps, i, n)
  }

  predicate GaveUpAt(policy: RetryPolicy, pool: Pool, steps: seq<Step>, i: nat, n: int)
    requires i < |pool.tasks|
  {
    if pool.tasks[i].known
    then GivesUp(policy, Answers(policy, pool, steps, i)) && n == |Answers(policy, pool, steps, i)|
    else n == 1
  }

  predicate AllAtStart(pool: Pool) {
    forall i :: 0 <= i < |pool.tasks| ==> pool.tasks[i].pc == Start
  }

  /** A task that gave up gets no more answers. */
  lemma GaveUpStays(policy: RetryPolicy, pool: Pool, before: seq<Step>, s: Step, i: nat, n: int)
    requires policy.Valid() && AllAtStart(pool) && i < |pool.tasks| && GaveUpAt(policy, pool, before, i, n)
    ensures GaveUpAt(policy, pool, before + [s], i, n)
  {
    var answers := Answers(policy, pool, before, i);
    AnswersDecide(policy, pool, before, i);
    assert (before + [s])[..|before + [s]| - 1] == before;
    assert answers + [] == answers;
  }

  /** The failure that a step announces has its cause. */
  lemma ReportHasCause(policy: RetryPolicy, pool: Pool, before: seq<Step>, s: Step, k: Key, n: int)
    requires policy.Valid() && AllAtStart(pool)
    requires var now := Run(policy, pool, before);
             && |now.tasks| == |pool.tasks|
             && NotificationFailed(k, n) in Advance(policy, now, s).events && NotificationFailed(k, n) !in now.events
    ensures s.task < |pool.tasks| && pool.tasks[s.task].key == k && GaveUpAt(policy, pool, before, s.task, n)
  {
    AnswersDecide(policy, pool, before, s.task);
  }

  lemma {:induction false} TasksStay(policy: RetryPolicy, pool: Pool, steps: seq<Step>)
    ensures |Run(policy, pool, steps).tasks| == |pool.tasks|
  {
    if steps != [] {
      TasksStay(policy, pool, steps[..|steps| - 1]);
    }
  }

  /**
   No failure is announced without a cause: behind every announcement is a task that gave up after so many
   attempts, or one whose notifier is unknown.
   */
  lemma {:induction false} FailureHasCause(policy: RetryPolicy, pool: Pool, steps: seq<Step>, k: Key, n: int)
    requires policy.Valid() && AllAtStart(pool) && NotificationFailed(k, n) !in pool.events
    requires NotificationFailed(k, n) in Run(policy, pool, steps).events
    ensures GaveUp(policy, pool, steps, k, n)
  {
    var before, s := steps[..|steps| - 1], steps[|steps| - 1];
    assert steps == before + [s];
    var i: nat;
    if NotificationFailed(k, n) in Run(policy, pool, before).events {
      FailureHasCause(policy, pool, before, k, n);
      i :| i < |pool.tasks| && pool.tasks[i].key == k && GaveUpAt(policy, pool, before, i, n);
    } else {
      TasksStay(policy, pool, before);
      ReportHasCause(policy, pool, before, s, k, n);
      i := s.task;
    }
    GaveUpStays(policy, pool, before, s, i, n);
  }

  /**
   Of the tasks that a dispatch with known notifiers has run to their end, those that gave up after `n`
   attempts are announced as failed after `n` attempts, and no others are.
   */
  lemma FailureAnnouncedIff(policy: RetryPolicy, pool: Pool, steps: seq<Step>, k: Key, n: int)
    requires policy.Valid() && AllAtStart(pool) && NotificationFailed(k, n) !in pool.events
    requires forall i :: 0 <= i < |pool.tasks| && pool.tasks[i].key == k ==> pool.tasks[i].known
    requires Ended(Run(policy, pool, steps))
    ensures NotificationFailed(k, n) in Run(policy, pool, steps).events <==> GaveUp(policy, pool, steps, k, n)
  {
    if NotificationFailed(k, n) in Run(policy, pool, steps).events {
      FailureHasCause(policy, pool, steps, k, n);
    } else if GaveUp(policy, pool, steps, k, n) {
      var i: nat :| i < |pool.tasks| && pool.tasks[i].key == k && GaveUpAt(policy, pool, steps, i, n);
      AnswersDecide(policy, pool, steps, i);
      DoneMeansTold(policy, pool, steps, i);
    }
  }

  // ------------------------------------------------------------------ objects

  /** The in-memory idempotency store, keyed by domain, threshold, cycle and channel. */
  class IdempotencyStore {
    var fired: map<Key, Instant>

    constructor ()
      ensures fired == map[]
    {
      fired := map[];
    }

    method AlreadyFired(key: Key) returns (yes: bool)
      ensures yes <==> key in fired
    {
      yes := key in fired;
    }

    method Record(key: Key, at: Instant)
      modifies this
      ensures fired == old(fired)[key := at]
    {
      fired := fired[key := at];
    }
  }

  /** A pool of one task takes a step. */
  lemma AdvanceAlone(policy: RetryPolicy, t: Task, fired: map<Key, Instant>, sent: seq<Key>, events: seq<Event>,
      s: Step)
    requires Live(t) && s.task == 0
    ensures Advance(policy, Pool([t], fired, sent, events), s)
         == Pool([t.(pc := NextPc(policy, t, fired, s.outcome))],
                 if t.pc == Recording then fired[t.key := s.now] else fired,
                 if t.pc.Sending? && s.outcome == Sent then sent + [t.key] else sent,
                 if t.pc == Announcing then events + [NotificationDispatched(t.key)]
                 else if t.pc.Reporting? then events + [NotificationFailed(t.key, t.pc.attempts)]
                 else events)
  {
    var t' := t.(pc := NextPc(policy, t, fired, s.outcome));
    assert [t][0 := t'] == [t'];
    assert events + [] == events;
  }

  lemma Alone(policy: RetryPolicy, start: Pool, steps: seq<Step>, t: Task, fired: map<Key, Instant>,
              sent: seq<Key>, events: seq<Event>, s: Step)
    requires Run(policy, start, steps) == Pool([t], fired, sent, events) && Live(t) && s.task == 0
    ensures Run(policy, start, steps + [s])
         == Pool([t.(pc := NextPc(policy, t, fired, s.outcome))],
                 if t.pc == Recording then fired[t.key := s.now] else fired,
                 if t.pc.Sending? && s.outcome == Sent then sent + [t.key] else sent,
                 if t.pc == Announcing then events + [NotificationDispatched(t.key)]
                 else if t.pc.Reporting? then events + [NotificationFailed(t.key, t.pc.attempts)]
                 else events)
  {
    RunOneMore(policy, start, steps, s);
    AdvanceAlone(policy, t, fired, sent, events, s);
  }

  /** Such a task sends, and then sleeps. */
  lemma SendsAlone(policy: RetryPolicy, start: Pool, steps: seq<Step>, key: Key, a: nat, pool: Pool, s: Step)
    requires Run(policy, start, steps) == pool.(tasks := [Task(key, true, Sending(a))]) && s.task == 0
    ensures Run(policy, start, steps + [s])
         == pool.(tasks := [Task(key, true, AfterSend(policy, a, s.outcome))],
                  sent := if s.outcome == Sent then pool.sent + [key] else pool.sent)
  {
    Alone(policy, start, steps, Task(key, true, Sending(a)), pool.fired, pool.sent, pool.events, s);
  }

  lemma SleepsAlone(policy: RetryPolicy, start: Pool, steps: seq<Step>, key: Key, a: nat, pool: Pool, s: Step)
    requires Run(policy, start, steps) == pool.(tasks := [Task(key, true, Sleeping(a))]) && s.task == 0
    ensures Run(policy, start, steps + [s]) == pool.(tasks := [Task(key, true, Sending(a + 1))])
  {
    Alone(policy, start, steps, Task(key, true, Sleeping(a)), pool.fired, pool.sent, pool.events, s);
  }

  /** The retry loop of a task that has passed the lookup. It ends by leaving the task at `end`. */
  method SendWithRetries(policy: RetryPolicy, key: Key, outcomes: nat -> SendResult, now: Instant,
                         ghost start: Pool, ghost before: seq<Step>, ghost pool: Pool)
    returns (end: Pc, calls: nat, slept: nat, ghost steps: seq<Step>)
    requires policy.Valid()
    requires pool.tasks == [Task(key, true, Sending(1))] && Run(policy, start, before) == pool
    ensures 1 <= calls <= policy.maxAttempts && slept == TotalDelay(policy, calls)
    ensures forall k :: 1 <= k < calls ==> outcomes(k) == DeliveryFailed
    ensures end == match outcomes(calls)
                   case Sent => Recording
                   case Crashed => Done
                   case _ => Reporting(calls)
    ensures outcomes(calls) == DeliveryFailed ==> calls == policy.maxAttempts
    ensures Run(policy, start, steps)
         == pool.(tasks := [Task(key, true, end)], sent := if end == Recording then pool.sent + [key] else pool.sent)
  {
    calls, slept, steps := 1, 0, before;
    while true
      invariant 1 <= calls <= policy.maxAttempts && slept == TotalDelay(policy, calls)
      invariant forall k :: 1 <= k < calls ==> outcomes(k) == DeliveryFailed
      invariant Run(policy, start, steps) == pool.(tasks := [Task(key, true, Sending(calls))])
      decreases policy.maxAttempts - calls
    {
      var outcome := outcomes(calls);
      ghost var s := Step(0, outcome, now);
      SendsAlone(policy, start, steps, key, calls, pool, s);
      steps := steps + [s];
      match outcome {
        case DeliveryFailed =>
          if calls < policy.maxAttempts {
            SleepsAlone(policy, start, steps, key, calls, pool, s);
            steps := steps + [s];
            slept := slept + DelayFor(policy, calls).value;
            calls := calls + 1;
            continue;
          }
          return Reporting(calls), calls, slept, steps;
        case PermanentlyFailed => return Reporting(calls), calls, slept, steps;
        case Crashed => return Done, calls, slept, steps;
        case Sent => return Recording, calls, slept, steps;
      }
    }
  }

  /**
   The delivery routine run without interruption. Its whole effect is that of one task stepping alone
   from start to end, so everything proved of schedules holds of it.
   */
  method Deliver(policy: RetryPolicy, store: IdempotencyStore, publisher: EventLog<Event>,
                 key: Key, known: bool, outcomes: nat -> SendResult, now: Instant, ghost sent: seq<Key>)
    returns (calls: nat, slept: nat, ghost steps: seq<Step>, ghost delivered: bool)
    requires policy.Valid()
    modifies store, publisher
    ensures calls <= policy.maxAttempts
    ensures calls > 0 ==> slept == TotalDelay(policy, calls)
    ensures calls > 0 <==> known && key !in old(store.fired)
    ensures forall k :: 1 <= k < calls ==> outcomes(k) == DeliveryFailed
    ensures calls > 0 && outcomes(calls) == DeliveryFailed ==> calls == policy.maxAttempts
    ensures delivered <==> calls > 0 && outcomes(calls) == Sent
    ensures store.fired == if delivered then old(store.fired)[key := now] else old(store.fired)
    ensures publisher.events == old(publisher.events)
              + (if key in old(store.fired) || (calls > 0 && outcomes(calls) == Crashed) then []
                 else if delivered then [NotificationDispatched(key)]
                 else [NotificationFailed(key, if known then calls else 1)])
    ensures var start := Pool([Task(key, known, Start)], old(store.fired), sent, old(publisher.events));
            Run(policy, start, steps)
              == Pool([Task(key, known, Done)], store.fired,
                      if delivered then sent + [key] else sent, publisher.events)
  {
    calls, slept, delivered := 0, 0, false;
    ghost var start := Pool([Task(key, known, Start)], store.fired, sent, publisher.events);
    ghost var s := Step(0, Sent, now);
    Alone(policy, start, [], Task(key, known, Start), store.fired, sent, publisher.events, s);
    steps := [] + [s];
    var seen := store.AlreadyFired(key);
    if seen {
      return;
    }
    var end := Reporting(1);
    if known {
      end, calls, slept, steps :=
        SendWithRetries(policy, key, outcomes, now, start, steps, Run(policy, start, steps));
    }
    ghost var t := Task(key, known, end);
    if end == Recording {
      delivered := true;
      Alone(policy, start, steps, t, store.fired, sent + [key], publisher.events, s);
      steps := steps + [s];
      store.Record(key, now);
      Alone(policy, start, steps, t.(pc := Announcing), store.fired, sent + [key], publisher.events, s);
      steps := steps + [s];
      publisher.Publish(NotificationDispatched(key));
    } else if end.Reporting? {
      Alone(policy, start, steps, t, store.fired, sent, publisher.events, s);
      steps := steps + [s];
      publisher.Publish(NotificationFailed(key, end.attempts));
    }
  }
}
