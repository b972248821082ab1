/** Which thresholds a check crosses, and which of them the policy turns into alerts. */
module NotificationPolicies {
  import opened Common
  import opened Monitoring

  datatype Severity = Info | Warning | Critical

  datatype Alert = Alert(domain: string, expiresAt: Instant, threshold: nat, severity: Severity, cycle: string)

  const DAY: nat := 86400

  function SeverityFor(threshold: nat): Severity {
    if threshold <= DAY then Critical else if threshold <= 7 * DAY then Warning else Info
  }

  /** The threshold is crossed once no more than `threshold` seconds are left. */
  predicate Crossed(expiresAt: Instant, threshold: nat, at: Instant) {
    expiresAt - at <= threshold as real
  }

  /** The instant a previous check vouches for: it must have been OK with the same expiry. */
  function Stamp(previous: Option<LastCheck>, expiresAt: Instant): Option<Instant> {
    if previous.Some? && previous.value.outcome == OK && previous.value.expiresAt == Some(expiresAt)
    then Some(previous.value.at) else None
  }

  predicate Fires(expiresAt: Instant, stamp: Option<Instant>, now: Instant, threshold: nat) {
    && Crossed(expiresAt, threshold, now)
    && !(stamp.Some? && Crossed(expiresAt, threshold, stamp.value))
  }

  /** The thresholds that fire, in the order the policy lists them. */
  function Firing(thresholds: seq<nat>, expiresAt: Instant, stamp: Option<Instant>, now: Instant): seq<nat> {
    if thresholds == [] then []
    else
      var last := thresholds[|thresholds| - 1];
      Firing(thresholds[..|thresholds| - 1], expiresAt, stamp, now)
      + if Fires(expiresAt, stamp, now, last) then [last] else []
  }

  function AlertOf(cycleId: Instant -> string, domain: string, expiresAt: Instant, threshold: nat): Alert {
    Alert(domain, expiresAt, threshold, SeverityFor(threshold), cycleId(expiresAt))
  }

  /** The policy's answer as a function of its inputs. */
  function Alerts(cycleId: Instant -> string, thresholds: seq<nat>, previous: Option<LastCheck>,
                  current: CheckResult, now: Instant): seq<Alert>
  {
    if current.outcome != OK || current.expiresAt.None? then []
    else
      var e := current.expiresAt.value;
      var fired := Firing(thresholds, e, Stamp(previous, e), now);
      seq(|fired|, i requires 0 <= i < |fired| => AlertOf(cycleId, current.domain, e, fired[i]))
  }

  method AlertsFor(cycleId: Instant -> string, thresholds: seq<nat>, previous: Option<LastCheck>,
                   current: CheckResult, now: Instant) returns (alerts: seq<Alert>)
    ensures alerts == Alerts(cycleId, thresholds, previous, current, now)
  {
    if current.outcome != OK || current.expiresAt.None? {
      return [];
    }
    var e := current.expiresAt.value;
    var timeLeft := e - now;
    var cycle := cycleId(e);
    var before: Option<real> := None;
    if previous.Some? && previous.value.outcome == OK && previous.value.expiresAt == Some(e) {
      before := Some(e - previous.value.at);
    }
    ghost var stamp := Stamp(previous, e);
    alerts := [];
    for k := 0 to |thresholds|
      invariant |alerts| == |Firing(thresholds[..k], e, stamp, now)|
      invariant forall i :: 0 <= i < |alerts| ==>
                  alerts[i] == AlertOf(cycleId, current.domain, e, Firing(thresholds[..k], e, stamp, now)[i])
    {
      var threshold := thresholds[k];
      assert thresholds[..k + 1][..k] == thresholds[..k];
      var crossedNow := timeLeft <= threshold as real;
      if !crossedNow {
        continue;
      }
      var crossedBefore := before.Some? && before.value <= threshold as real;
      if crossedBefore {
        continue;
      }
      alerts := alerts + [Alert(current.domain, e, threshold, SeverityFor(threshold), cycle)];
    }
    assert thresholds[..|thresholds|] == thresholds;
  }

  // ------------------------------------------------------------------- lemmas

  /** Closer thresholds are never less severe; the last day is critical, the last week a warning. */
  lemma SeverityGrows(near: nat, far: nat)
    requires near <= far
    ensures SeverityFor(far).Critical? ==> SeverityFor(near).Critical?
    ensures SeverityFor(far).Warning? ==> !SeverityFor(near).Info?
    ensures SeverityFor(near).Critical? <==> near <= 24 * 3600
    ensures SeverityFor(near).Info? <==> near > 7 * 24 * 3600
    ensures SeverityFor(86400) == Critical && SeverityFor(604800) == Warning && SeverityFor(2592000) == Info
  {
  }

  /**
   A threshold fires if it is listed, no more than so many seconds are left, and more were left at the stamp.
   */
  lemma {:induction false} FiringIff(thresholds: seq<nat>, e: Instant, stamp: Option<Instant>, now: Instant, t: nat)
    ensures t in Firing(thresholds, e, stamp, now) <==> t in thresholds && Fires(e, stamp, now, t)
    ensures Fires(e, stamp, now, t) <==> e - now <= t as real && (stamp.Some? ==> e - stamp.value > t as real)
  {
    if thresholds != [] {
      var rest := thresholds[..|thresholds| - 1];
      FiringIff(rest, e, stamp, now, t);
      assert t in thresholds <==> t in rest || t == thresholds[|thresholds| - 1];
    }
  }

  lemma DescendingMore(out: seq<nat>, last: nat)
    requires Descending(out) && forall t :: t in out ==> t > last
    ensures Descending(out + [last])
  {
    forall i | 0 <= i < |out|
      ensures out[i] > last
    {
      assert out[i] in out;
    }
  }

  /** Alerts come out strictly descending too, so no threshold fires twice in one dispatch. */
  lemma {:induction false} FiringDescends(thresholds: seq<nat>, e: Instant, stamp: Option<Instant>, now: Instant)
    requires Descending(thresholds)
    ensures Descending(Firing(thresholds, e, stamp, now))
  {
    if thresholds != [] {
      var rest, last := thresholds[..|thresholds| - 1], thresholds[|thresholds| - 1];
      FiringDescends(rest, e, stamp, now);
      forall t | t in Firing(rest, e, stamp, now)
        ensures t > last
      {
        FiringIff(rest, e, stamp, now, t);
        var k :| 0 <= k < |rest| && rest[k] == t;
        assert thresholds[k] == t;
      }
      DescendingMore(Firing(rest, e, stamp, now), last);
    }
  }

  /**
   The policy in plain terms: an alert is raised for an OK result with an expiry, one for each listed
   threshold with no more than so many seconds left, unless the previous check was OK with the same expiry
   and had no more than so many seconds left either.
   */
  lemma AlertsIff(cycleId: Instant -> string, thresholds: seq<nat>, previous: Option<LastCheck>,
                  current: CheckResult, now: Instant, a: Alert)
    ensures a in Alerts(cycleId, thresholds, previous, current, now) <==>
            && current.outcome == OK && current.expiresAt == Some(a.expiresAt)
            && a.domain == current.domain && a.cycle == cycleId(a.expiresAt)
            && a.severity == SeverityFor(a.threshold) && a.threshold in thresholds
            && a.expiresAt - now <= a.threshold as real
            && !(previous.Some? && previous.value.outcome == OK && previous.value.expiresAt == Some(a.expiresAt)
                 && a.expiresAt - previous.value.at <= a.threshold as real)
  {
    if current.outcome == OK && current.expiresAt.Some? {
      var e, alerts := current.expiresAt.value, Alerts(cycleId, thresholds, previous, current, now);
      var fired := Firing(thresholds, e, Stamp(previous, e), now);
      FiringIff(thresholds, e, Stamp(previous, e), now, a.threshold);
      if a.threshold in fired && a == AlertOf(cycleId, current.domain, e, a.threshold) {
        var i :| 0 <= i < |fired| && fired[i] == a.threshold;
        assert alerts[i] == a;
      }
    }
  }
}
