/** The watched domain, its last check, and the events that checks and alerts publish. */
module Monitoring {
  import opened Common
  import opened Text

  datatype CheckOutcome = OK | TransientError | PermanentError

  datatype CheckResult = CheckResult(domain: string, outcome: CheckOutcome, expiresAt: Option<Instant>) {
    predicate Valid() { outcome == OK <==> expiresAt.Some? }
  }

  datatype LastCheck = LastCheck(at: Instant, outcome: CheckOutcome, expiresAt: Option<Instant>) {
    predicate Valid() { outcome == OK <==> expiresAt.Some? }
  }

  /** Thresholds are whole seconds before expiry. */
  predicate Descending(thresholds: seq<nat>) {
    forall i, j :: 0 <= i < j < |thresholds| ==> thresholds[i] > thresholds[j]
  }

  /** A cron expression has five fields; its meaning is the scheduler's business. */
  predicate IsSchedule(cron: string) { FieldCount(cron) == 5 }

  datatype MonitoredDomain = MonitoredDomain(
    name: string,
    cron: string,
    checkerId: string,
    thresholds: seq<nat>,
    channels: seq<string>,
    lastCheck: Option<LastCheck>,
    metadata: map<string, string>
  ) {
    /** What the aggregate's constructor enforces. Channel ids need not be distinct. */
    predicate Valid() {
      && thresholds != [] && Descending(thresholds)
      && channels != [] && checkerId != ""
      && (lastCheck.Some? ==> lastCheck.value.Valid())
    }

    /** The domain after a check at `at`, or nothing when that would step back in time. */
    function WithCheckResult(result: CheckResult, at: Instant): Option<MonitoredDomain> {
      if lastCheck.Some? && at < lastCheck.value.at then None
      else Some(this.(lastCheck := Some(LastCheck(at, result.outcome, result.expiresAt))))
    }
  }

  /** What makes two deliveries the same delivery. */
  datatype Key = Key(domain: string, threshold: nat, cycle: string, channel: string)

  datatype Event =
    | DomainCheckCompleted(result: CheckResult)
    | DomainCheckFailed(domain: string, source: string, transient: bool)
    | NotificationDispatched(key: Key)
    | NotificationFailed(key: Key, attempts: int)

  /** The dictionary-backed repository of watched domains. */
  class MonitoredDomainRepo {
    var store: map<string, MonitoredDomain>

    constructor ()
      ensures store == map[]
    {
      store := map[];
    }

    method Get(name: string) returns (found: Option<MonitoredDomain>)
      ensures found == if name in store then Some(store[name]) else None
    {
      found := if name in store then Some(store[name]) else None;
    }

    method Update(domain: MonitoredDomain)
      modifies this
      ensures store == old(store)[domain.name := domain]
    {
      store := store[domain.name := domain];
    }

    method Remove(name: string)
      modifies this
      ensures store == old(store) - {name}
    {
      store := store - {name};
    }
  }
}
