/** One check of one domain: attempts under the retry policy, then at most one event. */
module CheckDomain {
  import opened Common
  import opened Monitoring
  import opened RetryPolicies

  /** How one call of the checker ends. `RaisedOther` is any exception that is not a check error. */
  datatype Attempt = Returned(result: CheckResult) | RaisedTransient | RaisedPermanent | RaisedOther

  datatype Reply = Answer(result: CheckResult) | Raised(attempt: Attempt) | ClockStepsBack | NotMonitored | NoChecker

  /** What a finished check does: the row it stores, the event it publishes, its reply. */
  datatype Ending = Ending(stored: Option<MonitoredDomain>, event: Option<Event>, reply: Reply)

  predicate Repeats(a: Attempt) {
    a.RaisedTransient? || (a.Returned? && a.result.outcome == TransientError)
  }

  /** The attempt that decides the check: the first one not to be repeated, or the last allowed. */
  function LastAttempt(outcomes: nat -> Attempt, max: nat, from: nat): (k: nat)
    requires 1 <= from <= max
    ensures from <= k <= max
    ensures forall i :: from <= i < k ==> Repeats(outcomes(i))
    ensures k < max ==> !Repeats(outcomes(k))
    decreases max - from
  {
    if from == max || !Repeats(outcomes(from)) then from else LastAttempt(outcomes, max, from + 1)
  }

  function Conclude(domain: MonitoredDomain, a: Attempt, now: Instant): Ending {
    match a
    case RaisedTransient => Ending(None, Some(DomainCheckFailed(domain.name, domain.checkerId, true)), Raised(a))
    case RaisedPermanent => Ending(None, Some(DomainCheckFailed(domain.name, domain.checkerId, false)), Raised(a))
    case RaisedOther => Ending(None, None, Raised(a))
    case Returned(r) =>
      match r.outcome
      case TransientError => Ending(None, Some(DomainCheckFailed(domain.name, domain.checkerId, true)), Answer(r))
      case PermanentError => Ending(None, Some(DomainCheckFailed(domain.name, domain.checkerId, false)), Answer(r))
      case OK =>
        match domain.WithCheckResult(r, now)
        case None => Ending(None, None, ClockStepsBack)
        case Some(d) => Ending(Some(d), Some(DomainCheckCompleted(r)), Answer(r))
  }

  /**
   The whole check of a row found in the repository. It publishes exactly one event when the checker
   ends with a result or a check error, save for an OK result that would move the last check back in
   time; and it stores a row exactly when the event says that the check completed.
   */
  function Checked(policy: RetryPolicy, domain: MonitoredDomain, outcomes: nat -> Attempt, now: Instant): (e: Ending)
    requires policy.Valid()
    ensures e.event.None? <==>
              var last := outcomes(LastAttempt(outcomes, policy.maxAttempts, 1));
              || last.RaisedOther?
              || (last.Returned? && last.result.outcome == OK
                  && domain.lastCheck.Some? && now < domain.lastCheck.value.at)
    ensures e.stored.Some? <==> e.event.Some? && e.event.value.DomainCheckCompleted?
    ensures e.stored.Some? ==>
              && e.reply == Answer(e.event.value.result)
              && e.stored.value == domain.(lastCheck := Some(LastCheck(now, OK, e.event.value.result.expiresAt)))
    ensures e.reply.Answer? && e.reply.result.outcome == OK ==> e.stored.Some?
    ensures e.event.Some? ==>
              var last := outcomes(LastAttempt(outcomes, policy.maxAttempts, 1));
              if last.Returned? && last.result.outcome == OK then e.event.value == DomainCheckCompleted(last.result)
              else
                var transient := last.RaisedTransient? || (last.Returned? && last.result.outcome == TransientError);
                e.event.value == DomainCheckFailed(domain.name, domain.checkerId, transient)
    ensures var last := outcomes(LastAttempt(outcomes, policy.maxAttempts, 1));
            if !last.Returned? then e.reply == Raised(last)
            else if last.result.outcome == OK && e.stored.None? then e.reply == ClockStepsBack
            else e.reply == Answer(last.result)
  {
    Conclude(domain, outcomes(LastAttempt(outcomes, policy.maxAttempts, 1)), now)
  }

  /** The use case: the loop of the source over a repository and an event log. */
  class CheckDomainUseCase {
    const repo: MonitoredDomainRepo
    const publisher: EventLog<Event>
    const checkers: set<string>
    const retryPolicy: RetryPolicy

    constructor (repo: MonitoredDomainRepo, publisher: EventLog<Event>, checkers: set<string>, retryPolicy: RetryPolicy)
      requires retryPolicy.Valid()
      ensures this.repo == repo && this.publisher == publisher
      ensures this.checkers == checkers && this.retryPolicy == retryPolicy
    {
      this.repo := repo;
      this.publisher := publisher;
      this.checkers := checkers;
      this.retryPolicy := retryPolicy;
    }

    /** The end of a check that came out OK. */
    method StoreResult(domain: MonitoredDomain, result: CheckResult, now: Instant) returns (reply: Reply)
      requires result.outcome == OK
      modifies repo, publisher
      ensures var ending := Conclude(domain, Returned(result), now);
              && reply == ending.reply
              && repo.store == (if ending.stored.Some?
                                then old(repo.store)[domain.name := ending.stored.value] else old(repo.store))
              && publisher.events == old(publisher.events)
                                     + (if ending.event.Some? then [ending.event.value] else [])
    {
      var stamped := domain.WithCheckResult(result, now);
      if stamped.None? {
        return ClockStepsBack;
      }
      repo.Update(stamped.value);
      publisher.Publish(DomainCheckCompleted(result));
      return Answer(result);
    }

    /** What follows the deciding attempt. */
    method Finish(domain: MonitoredDomain, a: Attempt, now: Instant) returns (reply: Reply)
      modifies repo, publisher
      ensures var ending := Conclude(domain, a, now);
              && reply == ending.reply
              && repo.store == (if ending.stored.Some?
                                then old(repo.store)[domain.name := ending.stored.value] else old(repo.store))
              && publisher.events == old(publisher.events)
                                     + (if ending.event.Some? then [ending.event.value] else [])
    {
      match a {
        case RaisedTransient =>
          publisher.Publish(DomainCheckFailed(domain.name, domain.checkerId, true));
          return Raised(a);
        case RaisedPermanent =>
          publisher.Publish(DomainCheckFailed(domain.name, domain.checkerId, false));
          return Raised(a);
        case RaisedOther =>
          return Raised(a);
        case Returned(result) =>
          match result.outcome {
            case TransientError =>
              publisher.Publish(DomainCheckFailed(domain.name, domain.checkerId, true));
              return Answer(result);
            case PermanentError =>
              publisher.Publish(DomainCheckFailed(domain.name, domain.checkerId, false));
              return Answer(result);
            case OK =>
              reply := StoreResult(domain, result, now);
          }
      }
    }

    /** The loop over attempts, for a row that was found and whose checker is known. */
    method RunAttempts(domain: MonitoredDomain, outcomes: nat -> Attempt, now: Instant)
      returns (reply: Reply, calls: nat, slept: nat)
      requires retryPolicy.Valid()
      modifies repo, publisher
      ensures calls == LastAttempt(outcomes, retryPolicy.maxAttempts, 1) && slept == TotalDelay(retryPolicy, calls)
      ensures var ending := Checked(retryPolicy, domain, outcomes, now);
              && reply == ending.reply
              && repo.store == (if ending.stored.Some?
                                then old(repo.store)[domain.name := ending.stored.value] else old(repo.store))
              && publisher.events == old(publisher.events)
                                     + (if ending.event.Some? then [ending.event.value] else [])
    {
      calls, slept := 0, 0;
      var attempt := 1;
      while true
        invariant 1 <= attempt <= retryPolicy.maxAttempts
        invariant calls == attempt - 1 && slept == TotalDelay(retryPolicy, attempt)
        invariant LastAttempt(outcomes, retryPolicy.maxAttempts, 1)
               == LastAttempt(outcomes, retryPolicy.maxAttempts, attempt)
        invariant repo.store == old(repo.store) && publisher.events == old(publisher.events)
        decreases retryPolicy.maxAttempts - attempt
      {
        calls := calls + 1;
        var a := outcomes(attempt);
        if attempt < retryPolicy.maxAttempts
            && (a.RaisedTransient? || (a.Returned? && a.result.outcome == TransientError)) {
          slept := slept + DelayFor(retryPolicy, attempt).value;
          attempt := attempt + 1;
          continue;
        }
        reply := Finish(domain, a, now);
        return;
      }
    }

    /**
     `outcomes(k)` is how the checker answers attempt `k`, `now` the clock when the result is stored.
     Besides the reply, the method returns how often the checker was called and how long it slept.
     */
    method Execute(name: string, outcomes: nat -> Attempt, now: Instant)
      returns (reply: Reply, calls: nat, slept: nat)
      requires retryPolicy.Valid()
      requires forall n :: n in repo.store ==> repo.store[n].name == n
      modifies repo, publisher
      ensures calls <= retryPolicy.maxAttempts
      ensures name !in old(repo.store) ==> reply == NotMonitored && calls == 0
      ensures name in old(repo.store) && old(repo.store)[name].checkerId !in checkers
              ==> reply == NoChecker && calls == 0
      ensures calls == 0 ==> repo.store == old(repo.store) && publisher.events == old(publisher.events) && slept == 0
      ensures forall k :: 1 <= k <= calls && (k < calls || calls < retryPolicy.maxAttempts) ==>
                (k < calls <==> outcomes(k).RaisedTransient?
                                || (outcomes(k).Returned? && outcomes(k).result.outcome == TransientError))
      ensures name in old(repo.store) && old(repo.store)[name].checkerId in checkers ==>
                var ending := Checked(retryPolicy, old(repo.store)[name], outcomes, now);
                && calls == LastAttempt(outcomes, retryPolicy.maxAttempts, 1)
                && slept == TotalDelay(retryPolicy, calls)
                && reply == ending.reply
                && repo.store == (if ending.stored.Some?
                                  then old(repo.store)[name := ending.stored.value] else old(repo.store))
                && publisher.events == old(publisher.events)
                                       + (if ending.event.Some? then [ending.event.value] else [])
    {
      calls, slept := 0, 0;
      var found := repo.Get(name);
      if found.None? {
        return NotMonitored, calls, slept;
      }
      if found.value.checkerId !in checkers {
        return NoChecker, calls, slept;
      }
      reply, calls, slept := RunAttempts(found.value, outcomes, now);
    }
  }
}
