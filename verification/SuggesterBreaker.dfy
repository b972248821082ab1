/**
 The circuit breaker around the rule suggester: too many failures inside a window open it, and
 while it is open the wrapped suggester is not called.
 */
module SuggesterBreaker {
  import opened Common

  datatype Settings = Settings(threshold: int, failureWindow: real, openDuration: real)

  datatype Breaker = Breaker(failures: seq<Instant>, openedAt: Option<Instant>)

  const CLOSED := Breaker([], None)

  /** How the wrapped suggester ends: a rule, a suggestion error, or any other exception. */
  datatype Inner = Answered | Refused | Crashed

  datatype Reply = CircuitOpen | Passed(inner: Inner)

  /** One call: when the breaker is asked, how the inner call would end, and when. */
  datatype Call = Call(askedAt: Instant, inner: Inner, doneAt: Instant)

  // -------------------------------------------------------------- transitions

  /** Does the breaker short-circuit a call made now? */
  predicate Holds(c: Settings, b: Breaker, now: Instant) {
    b.openedAt.Some? && now - b.openedAt.value < c.openDuration
  }

  /** Asking the breaker closes it once the open period is over. */
  function Probed(c: Settings, b: Breaker, now: Instant): Breaker {
    if b.openedAt.Some? && !Holds(c, b, now) then CLOSED else b
  }

  /** The failures that are not older than the window, dropping from the old end. */
  function Recent(failures: seq<Instant>, now: Instant, window: real): seq<Instant> {
    if failures != [] && now - failures[0] > window then Recent(failures[1..], now, window) else failures
  }

  function Failed(c: Settings, b: Breaker, now: Instant): Breaker {
    var recent := Recent(b.failures + [now], now, c.failureWindow);
    Breaker(recent, if |recent| >= c.threshold then Some(now) else b.openedAt)
  }

  function Step(c: Settings, b: Breaker, call: Call): Breaker {
    if Holds(c, b, call.askedAt) then b
    else
      var probed := Probed(c, b, call.askedAt);
      match call.inner
      case Answered => CLOSED
      case Refused => Failed(c, probed, call.doneAt)
      case Crashed => probed
  }

  // -------------------------------------------------------------- whole runs

  function After(c: Settings, calls: seq<Call>): Breaker {
    if calls == [] then CLOSED
    else Step(c, After(c, calls[..|calls| - 1]), calls[|calls| - 1])
  }

  /** Calls are serialized and the clock does not run backwards. */
  ghost predicate Serialized(calls: seq<Call>) {
    && (forall k :: 0 <= k < |calls| ==> calls[k].askedAt <= calls[k].doneAt)
    && (forall j, k :: 0 <= j < k < |calls| ==> calls[j].doneAt <= calls[k].askedAt)
  }

  /** The inner suggester is called by call `k`. */
  predicate Invoked(c: Settings, calls: seq<Call>, k: nat)
    requires k < |calls|
  {
    !Holds(c, After(c, calls[..k]), calls[k].askedAt)
  }

  /** Call `k` reaches the inner suggester and the inner suggester fails. */
  predicate FailedAt(c: Settings, calls: seq<Call>, k: nat)
    requires k < |calls|
  {
    Invoked(c, calls, k) && calls[k].inner == Refused
  }

  /** Call `k` reaches the inner suggester and gets an answer. */
  predicate SucceededAt(c: Settings, calls: seq<Call>, k: nat)
    requires k < |calls|
  {
    Invoked(c, calls, k) && calls[k].inner == Answered
  }

  /** The failure of call `k` opens the breaker. */
  predicate TripsAt(c: Settings, calls: seq<Call>, k: nat)
    requires k < |calls|
  {
    FailedAt(c, calls, k) && After(c, calls[..k + 1]).openedAt.Some?
  }

  /** Failing inner calls among positions `from .. |calls|-1`. */
  function FailuresFrom(c: Settings, calls: seq<Call>, from: nat): nat {
    if |calls| <= from then 0
    else FailuresFrom(c, calls[..|calls| - 1], from) + if FailedAt(c, calls, |calls| - 1) then 1 else 0
  }

  /** What a call does to the failure instants since the latest success or the latest end of an open period. */
  function StreakAfter(c: Settings, b: Breaker, streak: seq<Instant>, call: Call): seq<Instant> {
    if Holds(c, b, call.askedAt) then streak
    else
      var kept := if b.openedAt.Some? then [] else streak;
      match call.inner
      case Answered => []
      case Refused => kept + [call.doneAt]
      case Crashed => kept
  }

  /** All of those instants, whether the breaker still remembers them or not. */
  function Streak(c: Settings, calls: seq<Call>): seq<Instant> {
    if calls == [] then []
    else
      var before := calls[..|calls| - 1];
      StreakAfter(c, After(c, before), Streak(c, before), calls[|calls| - 1])
  }

  // ------------------------------------------------------------------- lemmas

  lemma SerializedPrefix(calls: seq<Call>, n: nat)
    requires Serialized(calls) && n <= |calls|
    ensures Serialized(calls[..n])
  {
    forall j, k | 0 <= j < k < n
      ensures calls[..n][j].doneAt <= calls[..n][k].askedAt
    {
      assert calls[j].doneAt <= calls[k].askedAt;
    }
  }

  /** What happens at a call does not depend on later calls. */
  lemma SameOnPrefix(c: Settings, calls: seq<Call>, n: nat, k: nat)
    requires k < n <= |calls|
    ensures calls[..n][k] == calls[k] && calls[..n][..k] == calls[..k] && calls[..n][..k + 1] == calls[..k + 1]
    ensures Invoked(c, calls[..n], k) <==> Invoked(c, calls, k)
    ensures SucceededAt(c, calls[..n], k) <==> SucceededAt(c, calls, k)
    ensures FailedAt(c, calls[..n], k) <==> FailedAt(c, calls, k)
    ensures TripsAt(c, calls[..n], k) <==> TripsAt(c, calls, k)
  {
  }

  /** Trimming keeps a tail, and drops old failures only. */
  lemma {:induction false} RecentIsTail(fs: seq<Instant>, now: Instant, window: real)
    ensures var r := Recent(fs, now, window);
            && |r| <= |fs| && r == fs[|fs| - |r|..]
            && (forall i :: 0 <= i < |fs| - |r| ==> now - fs[i] > window)
            && (r != [] ==> now - r[0] <= window)
  {
    if fs != [] && now - fs[0] > window {
      RecentIsTail(fs[1..], now, window);
      var r := Recent(fs, now, window);
      forall i | 0 <= i < |fs| - |r|
        ensures now - fs[i] > window
      {
        assert i > 0 ==> fs[i] == fs[1..][i - 1];
      }
    }
  }

  /** Failure instants never decrease, and none lies after `end`. */
  ghost predicate Ordered(fs: seq<Instant>, end: Instant) {
    && (forall i, j :: 0 <= i < j < |fs| ==> fs[i] <= fs[j])
    && (forall i :: 0 <= i < |fs| ==> fs[i] <= end)
  }

  /** `kept` is `streak` without its oldest part, which was out of the window at the last failure. */
  ghost predicate Trims(c: Settings, kept: seq<Instant>, streak: seq<Instant>) {
    && |kept| <= |streak|
    && kept == streak[|streak| - |kept|..]
    && (forall i :: 0 <= i < |streak| - |kept| ==> streak[|streak| - 1] - streak[i] > c.failureWindow)
  }

  lemma RememberStep(c: Settings, b: Breaker, streak: seq<Instant>, call: Call)
    requires Trims(c, b.failures, streak) && Ordered(streak, call.askedAt) && call.askedAt <= call.doneAt
    ensures Trims(c, Step(c, b, call).failures, StreakAfter(c, b, streak, call))
    ensures Ordered(StreakAfter(c, b, streak, call), call.doneAt)
  {
    if !Holds(c, b, call.askedAt) && call.inner == Refused {
      var kept := if b.openedAt.Some? then [] else streak;
      AppendTrims(c, Probed(c, b, call.askedAt).failures, kept, call.doneAt);
    }
  }

  /** What the breaker remembers, compared with everything that failed since the last restart. */
  lemma {:induction false} RemembersStreak(c: Settings, calls: seq<Call>)
    requires Serialized(calls)
    ensures Ordered(Streak(c, calls), if calls == [] then 0.0 else calls[|calls| - 1].doneAt)
    ensures Trims(c, After(c, calls).failures, Streak(c, calls))
    decreases |calls|, 0
  {
    if calls != [] {
      var k := |calls| - 1;
      assert calls[..k + 1] == calls;
      RememberedBefore(c, calls, k);
      AfterOneMore(c, calls, k);
      RememberStep(c, After(c, calls[..k]), Streak(c, calls[..k]), calls[k]);
    }
  }

  /** The same just before call `k` is made. */
  lemma RememberedBefore(c: Settings, calls: seq<Call>, k: nat)
    requires Serialized(calls) && k < |calls|
    ensures Ordered(Streak(c, calls[..k]), calls[k].askedAt) && calls[k].askedAt <= calls[k].doneAt
    ensures Trims(c, After(c, calls[..k]).failures, Streak(c, calls[..k]))
    decreases k, 1
  {
    SerializedPrefix(calls, k);
    RemembersStreak(c, calls[..k]);
    assert k > 0 ==> calls[..k][k - 1] == calls[k - 1] && calls[k - 1].doneAt <= calls[k].askedAt;
  }

  lemma TailOfTail(s: seq<Instant>, m: nat, n: nat)
    requires m <= |s| && n <= |s| - m
    ensures s[m..][n..] == s[m + n..]
  {
  }

  lemma AppendKeepsTail(kept: seq<Instant>, streak: seq<Instant>, now: Instant)
    requires |kept| <= |streak| && kept == streak[|streak| - |kept|..]
    ensures kept + [now] == (streak + [now])[|streak| - |kept|..]
  {
  }

  /** What was trimmed before is out of the window still, and so is what is trimmed now. */
  lemma TrimmedIsOld(c: Settings, kept: seq<Instant>, streak: seq<Instant>, now: Instant, i: nat)
    requires Trims(c, kept, streak) && Ordered(streak, now)
    requires i < |streak| + 1 - |Recent(kept + [now], now, c.failureWindow)|
    ensures now - (streak + [now])[i] > c.failureWindow
  {
    var fs, gone := kept + [now], |streak| - |kept|;
    RecentIsTail(fs, now, c.failureWindow);
    if i < gone {
      assert streak[|streak| - 1] <= now;
    } else {
      AppendKeepsTail(kept, streak, now);
      assert (streak + [now])[i] == fs[i - gone];
    }
  }

  /** One more failure. */
  lemma AppendTrims(c: Settings, kept: seq<Instant>, streak: seq<Instant>, now: Instant)
    requires Trims(c, kept, streak) && Ordered(streak, now)
    ensures Trims(c, Recent(kept + [now], now, c.failureWindow), streak + [now])
    ensures Ordered(streak + [now], now)
  {
    var fs, s := kept + [now], streak + [now];
    var r := Recent(fs, now, c.failureWindow);
    assert Ordered(streak + [now], now);
    RecentIsTail(fs, now, c.failureWindow);
    AppendKeepsTail(kept, streak, now);
    TailOfTail(s, |streak| - |kept|, |fs| - |r|);
    forall i | 0 <= i < |s| - |r|
      ensures s[|s| - 1] - s[i] > c.failureWindow
    {
      TrimmedIsOld(c, kept, streak, now, i);
    }
  }

  /** Enough failures are kept exactly when the last `threshold` of the streak lie within the window. */
  lemma KeptIff(c: Settings, kept: seq<Instant>, streak: seq<Instant>)
    requires c.threshold >= 1 && Trims(c, kept, streak) && streak != []
    requires Ordered(streak, streak[|streak| - 1])
    requires kept != [] ==> streak[|streak| - 1] - kept[0] <= c.failureWindow
    ensures |kept| >= c.threshold <==>
            c.threshold <= |streak| && streak[|streak| - 1] - streak[|streak| - c.threshold] <= c.failureWindow
  {
    if |kept| >= c.threshold {
      assert kept[0] == streak[|streak| - |kept|] <= streak[|streak| - c.threshold];
    }
  }

  /** The state after a failing call. */
  lemma AfterFailure(c: Settings, b: Breaker, streak: seq<Instant>, call: Call)
    requires c.threshold >= 1 && !Holds(c, b, call.askedAt) && call.inner == Refused
    ensures var b', streak' := Step(c, b, call), StreakAfter(c, b, streak, call);
            && (b'.openedAt.Some? <==> |b'.failures| >= c.threshold)
            && streak' != [] && streak'[|streak'| - 1] == call.doneAt
            && (b'.failures != [] ==> call.doneAt - b'.failures[0] <= c.failureWindow)
  {
    RecentIsTail(Probed(c, b, call.askedAt).failures + [call.doneAt], call.doneAt, c.failureWindow);
  }

  lemma AfterOneMore(c: Settings, calls: seq<Call>, k: nat)
    requires k < |calls|
    ensures After(c, calls[..k + 1]) == Step(c, After(c, calls[..k]), calls[k])
    ensures Streak(c, calls[..k + 1]) == StreakAfter(c, After(c, calls[..k]), Streak(c, calls[..k]), calls[k])
  {
    assert calls[..k + 1][..k] == calls[..k] && calls[..k + 1][k] == calls[k];
  }

  lemma TripStep(c: Settings, b: Breaker, streak: seq<Instant>, call: Call)
    requires c.threshold >= 1 && !Holds(c, b, call.askedAt) && call.inner == Refused
    requires Trims(c, b.failures, streak) && Ordered(streak, call.askedAt) && call.askedAt <= call.doneAt
    ensures var all := StreakAfter(c, b, streak, call);
            Step(c, b, call).openedAt.Some? <==>
            c.threshold <= |all| && call.doneAt - all[|all| - c.threshold] <= c.failureWindow
  {
    RememberStep(c, b, streak, call);
    AfterFailure(c, b, streak, call);
    KeptIff(c, Step(c, b, call).failures, StreakAfter(c, b, streak, call));
  }

  /**
   The breaker trips at a failing call exactly when the last `threshold` failures since the latest
   success or reset all lie within the failure window.
   */
  lemma TripsIff(c: Settings, calls: seq<Call>, k: nat)
    requires c.threshold >= 1 && Serialized(calls) && k < |calls| && FailedAt(c, calls, k)
    ensures var streak := Streak(c, calls[..k + 1]);
            TripsAt(c, calls, k) <==>
            c.threshold <= |streak| && calls[k].doneAt - streak[|streak| - c.threshold] <= c.failureWindow
  {
    RememberedBefore(c, calls, k);
    AfterOneMore(c, calls, k);
    TripStep(c, After(c, calls[..k]), Streak(c, calls[..k]), calls[k]);
  }

  /** Some call after `i` was made when the open period of a trip at `i` was over. */
  predicate Outlasted(c: Settings, calls: seq<Call>, i: nat)
    requires i < |calls|
  {
    exists k :: i < k < |calls| && calls[k].askedAt - calls[i].doneAt >= c.openDuration
  }

  /** From a trip on, the breaker is either still open since that trip or its open period is over. */
  lemma {:induction false} OpenSinceTrip(c: Settings, calls: seq<Call>, i: nat)
    requires Serialized(calls) && i < |calls| && TripsAt(c, calls, i)
    ensures After(c, calls).openedAt == Some(calls[i].doneAt) || Outlasted(c, calls, i)
    decreases |calls|
  {
    var n := |calls|;
    if i == n - 1 {
      assert calls[..n] == calls;
    } else {
      var before := calls[..n - 1];
      SerializedPrefix(calls, n - 1);
      SameOnPrefix(c, calls, n - 1, i);
      OpenSinceTrip(c, before, i);
      if Outlasted(c, before, i) {
        var k :| i < k < n - 1 && before[k].askedAt - before[i].doneAt >= c.openDuration;
        assert calls[k].askedAt - calls[i].doneAt >= c.openDuration;
      } else if !Holds(c, After(c, before), calls[n - 1].askedAt) {
        assert calls[n - 1].askedAt - calls[i].doneAt >= c.openDuration;
      }
    }
  }

  /** No inner call starts until the open period after a trip is over. */
  lemma QuietAfterTrip(c: Settings, calls: seq<Call>, i: nat, j: nat)
    requires Serialized(calls) && i < j < |calls|
    requires TripsAt(c, calls, i) && Invoked(c, calls, j)
    ensures calls[j].askedAt - calls[i].doneAt >= c.openDuration
  {
    var before := calls[..j];
    SerializedPrefix(calls, j);
    SameOnPrefix(c, calls, j, i);
    OpenSinceTrip(c, before, i);
    if After(c, before).openedAt != Some(calls[i].doneAt) {
      var k :| i < k < j && before[k].askedAt - before[i].doneAt >= c.openDuration;
      assert calls[k].askedAt <= calls[k].doneAt <= calls[j].askedAt;
    }
  }

  /** Call `p` fails, and from then on nothing trips the breaker and nothing succeeds. */
  ghost predicate Unbroken(c: Settings, calls: seq<Call>, p: nat)
    requires p < |calls|
  {
    && FailedAt(c, calls, p)
    && (forall k :: p <= k < |calls| ==> !TripsAt(c, calls, k))
    && (forall k :: p < k < |calls| ==> !SucceededAt(c, calls, k))
  }

  lemma UnbrokenPrefix(c: Settings, calls: seq<Call>, p: nat, n: nat)
    requires p < n <= |calls| && Unbroken(c, calls, p)
    ensures Unbroken(c, calls[..n], p)
  {
    forall k | p <= k < n
      ensures !TripsAt(c, calls[..n], k) && (p < k ==> !SucceededAt(c, calls[..n], k))
    {
      SameOnPrefix(c, calls, n, k);
    }
    SameOnPrefix(c, calls, n, p);
  }

  /** One more call that neither trips nor succeeds, seen from a closed breaker. */
  lemma StreakStep(c: Settings, calls: seq<Call>, p: nat)
    requires p < |calls| - 1
    requires !TripsAt(c, calls, |calls| - 1) && !SucceededAt(c, calls, |calls| - 1)
    requires After(c, calls[..|calls| - 1]).openedAt == None
    ensures After(c, calls).openedAt == None
    ensures Streak(c, calls) == Streak(c, calls[..|calls| - 1])
              + if calls[|calls| - 1].inner == Refused then [calls[|calls| - 1].doneAt] else []
    ensures FailuresFrom(c, calls, p) == FailuresFrom(c, calls[..|calls| - 1], p)
              + if calls[|calls| - 1].inner == Refused then 1 else 0
  {
    assert calls[..|calls|] == calls;
  }

  /** While nothing trips or succeeds, every failure from `p` on stays in the streak. */
  lemma {:induction false} StreakGrows(c: Settings, calls: seq<Call>, p: nat)
    requires p < |calls| && Unbroken(c, calls, p)
    ensures After(c, calls).openedAt == None
    ensures var streak, n := Streak(c, calls), FailuresFrom(c, calls, p);
            1 <= n <= |streak| && streak[|streak| - n] == calls[p].doneAt
    decreases |calls|
  {
    var n := |calls|;
    if p == n - 1 {
      assert calls[..n] == calls;
      assert !TripsAt(c, calls, n - 1);
    } else {
      UnbrokenPrefix(c, calls, p, n - 1);
      StreakGrows(c, calls[..n - 1], p);
      StreakStep(c, calls, p);
    }
  }

  /** `threshold` failures that do not trip the breaker take longer than the failure window. */
  lemma NoTripMeansSlow(c: Settings, calls: seq<Call>, p: nat)
    requires c.threshold >= 1 && Serialized(calls) && p < |calls| && Unbroken(c, calls, p)
    requires FailedAt(c, calls, |calls| - 1)
    requires FailuresFrom(c, calls, p) >= c.threshold
    ensures calls[|calls| - 1].doneAt - calls[p].doneAt > c.failureWindow
  {
    var last := |calls| - 1;
    assert calls[..last + 1] == calls;
    assert !TripsAt(c, calls, last);
    StreakGrows(c, calls, p);
    TripsIff(c, calls, last);
    RemembersStreak(c, calls);
    var streak := Streak(c, calls);
    assert streak[|streak| - FailuresFrom(c, calls, p)] <= streak[|streak| - c.threshold];
  }

  lemma CalmPrefix(c: Settings, calls: seq<Call>, p: nat, n: nat)
    requires p < n <= |calls| && FailedAt(c, calls, p)
    requires forall k :: p <= k < n ==> !TripsAt(c, calls, k)
    requires forall k :: p < k < n ==> !SucceededAt(c, calls, k)
    ensures Unbroken(c, calls[..n], p)
  {
    forall k | p <= k < n
      ensures !TripsAt(c, calls[..n], k) && (p < k ==> !SucceededAt(c, calls[..n], k))
    {
      SameOnPrefix(c, calls, n, k);
    }
    SameOnPrefix(c, calls, n, p);
  }

  /** The same when the stretch goes on after its last failure. */
  lemma {:induction false} CalmStretch(c: Settings, calls: seq<Call>, p: nat)
    requires c.threshold >= 1 && Serialized(calls) && p < |calls| && Unbroken(c, calls, p)
    requires FailuresFrom(c, calls, p) >= c.threshold
    ensures calls[|calls| - 1].doneAt - calls[p].doneAt > c.failureWindow
    decreases |calls|
  {
    var last := |calls| - 1;
    if FailedAt(c, calls, last) {
      NoTripMeansSlow(c, calls, p);
    } else {
      UnbrokenPrefix(c, calls, p, last);
      SerializedPrefix(calls, last);
      CalmStretch(c, calls[..last], p);
      assert calls[last - 1].doneAt <= calls[last].askedAt <= calls[last].doneAt;
    }
  }

  /**
   Any `threshold + 1` failing inner calls with no success between them take at least the failure
   window or the open period, whichever is shorter: the outage rate seen by the suggester is bounded.
   Call `q` is one of them and `threshold` others, the first at `p`, precede it.
   */
  lemma FailuresAreSpread(c: Settings, calls: seq<Call>, p: nat, q: nat)
    requires c.threshold >= 1 && Serialized(calls) && p < q < |calls|
    requires FailedAt(c, calls, p) && FailedAt(c, calls, q)
    requires forall k :: p < k < q ==> !SucceededAt(c, calls, k)
    requires FailuresFrom(c, calls[..q], p) >= c.threshold
    ensures calls[q].askedAt - calls[p].doneAt >= Min(c.failureWindow, c.openDuration)
  {
    if k :| p <= k < q && TripsAt(c, calls, k) {
      QuietAfterTrip(c, calls, k, q);
      assert p < k ==> calls[p].doneAt <= calls[k].askedAt <= calls[k].doneAt;
    } else {
      CalmPrefix(c, calls, p, q);
      SerializedPrefix(calls, q);
      CalmStretch(c, calls[..q], p);
      assert calls[q - 1].doneAt <= calls[q].askedAt;
    }
  }

  // ------------------------------------------------- the breaker as its users see it

  /** An open breaker was opened by a call that tripped it. */
  lemma {:induction false} OpenedByTrip(c: Settings, calls: seq<Call>) returns (i: nat)
    requires After(c, calls).openedAt.Some?
    ensures i < |calls| && TripsAt(c, calls, i) && After(c, calls).openedAt == Some(calls[i].doneAt)
  {
    var n := |calls|;
    assert calls[..n] == calls;
    if TripsAt(c, calls, n - 1) {
      i := n - 1;
    } else {
      i := OpenedByTrip(c, calls[..n - 1]);
      SameOnPrefix(c, calls, n - 1, i);
    }
  }

  /**
   A call is short-circuited if and only if some earlier failure tripped the breaker less than the open
   duration ago: from then on the suggester is asked again.
   */
  lemma HeldIff(c: Settings, calls: seq<Call>, j: nat)
    requires Serialized(calls) && j < |calls|
    ensures !Invoked(c, calls, j) <==>
            exists i :: 0 <= i < j && TripsAt(c, calls, i) && calls[j].askedAt - calls[i].doneAt < c.openDuration
  {
    if !Invoked(c, calls, j) {
      var i := OpenedByTrip(c, calls[..j]);
      SameOnPrefix(c, calls, j, i);
    } else if i :| 0 <= i < j && TripsAt(c, calls, i) && calls[j].askedAt - calls[i].doneAt < c.openDuration {
      QuietAfterTrip(c, calls, i, j);
    }
  }

  /** Call `p` fails, as do enough calls up to call `k`, and nothing trips or succeeds on the way. */
  ghost predicate Burst(c: Settings, calls: seq<Call>, p: nat, k: nat)
    requires k < |calls|
  {
    && p <= k && FailedAt(c, calls, p) && FailuresFrom(c, calls[..k + 1], p) >= c.threshold
    && (forall m :: p <= m < k ==> !TripsAt(c, calls, m))
    && (forall m :: p < m < k ==> !SucceededAt(c, calls, m))
  }

  lemma LastFailure(c: Settings, calls: seq<Call>)
    requires calls != [] && FailedAt(c, calls, |calls| - 1)
    ensures FailuresFrom(c, calls, |calls| - 1) == 1
    ensures Unbroken(c, calls, |calls| - 1) <==> !TripsAt(c, calls, |calls| - 1)
  {
    assert FailuresFrom(c, calls[..|calls| - 1], |calls| - 1) == 0;
  }

  lemma UnbrokenMore(c: Settings, calls: seq<Call>, p: nat)
    requires p < |calls| - 1 && Unbroken(c, calls[..|calls| - 1], p)
    requires !TripsAt(c, calls, |calls| - 1) && !SucceededAt(c, calls, |calls| - 1)
    ensures Unbroken(c, calls, p)
  {
    var last := |calls| - 1;
    forall k | p <= k < last
      ensures !TripsAt(c, calls, k) && (p < k ==> !SucceededAt(c, calls, k))
    {
      SameOnPrefix(c, calls, last, k);
    }
    SameOnPrefix(c, calls, last, p);
  }

  /** Each instant of the streak of a closed breaker is that of a failing call since which nothing tripped. */
  lemma {:induction false} StreakPosition(c: Settings, calls: seq<Call>, i: nat) returns (p: nat)
    requires After(c, calls).openedAt == None && i < |Streak(c, calls)|
    ensures p < |calls| && Unbroken(c, calls, p)
    ensures FailuresFrom(c, calls, p) == |Streak(c, calls)| - i && Streak(c, calls)[i] == calls[p].doneAt
    decreases |calls|
  {
    var last := |calls| - 1;
    var before := calls[..last];
    assert calls[..last + 1] == calls;
    AfterOneMore(c, calls, last);
    if FailedAt(c, calls, last) && i == |Streak(c, calls)| - 1 {
      p := last;
      LastFailure(c, calls);
    } else {
      p := StreakPosition(c, before, i);
      UnbrokenMore(c, calls, p);
      StreakStep(c, calls, p);
    }
  }

  /** The trip of a call, seen from the calls before it. */
  lemma TripHasBurst(c: Settings, calls: seq<Call>, k: nat) returns (p: nat)
    requires c.threshold >= 1 && Serialized(calls) && k < |calls| && TripsAt(c, calls, k)
    ensures Burst(c, calls, p, k) && calls[k].doneAt - calls[p].doneAt <= c.failureWindow
  {
    var before, upto := calls[..k], calls[..k + 1];
    var streak := Streak(c, upto);
    TripsIff(c, calls, k);
    AfterOneMore(c, calls, k);
    SameOnPrefix(c, calls, k + 1, k);
    LastFailure(c, upto);
    if c.threshold == 1 {
      p := k;
    } else {
      p := StreakPosition(c, before, |streak| - c.threshold);
      assert upto[..k] == before;
      assert FailuresFrom(c, upto, p) == FailuresFrom(c, before, p) + 1;
      forall m | p <= m < k
        ensures !TripsAt(c, calls, m) && (p < m ==> !SucceededAt(c, calls, m))
      {
        SameOnPrefix(c, calls, k, m);
      }
      SameOnPrefix(c, calls, k, p);
    }
  }

  lemma CalmBurstIsSlow(c: Settings, calls: seq<Call>, p: nat, k: nat)
    requires c.threshold >= 1 && Serialized(calls) && k < |calls| && FailedAt(c, calls, k)
    requires Burst(c, calls, p, k) && !TripsAt(c, calls, k)
    ensures calls[k].doneAt - calls[p].doneAt > c.failureWindow
  {
    CalmPrefix(c, calls, p, k + 1);
    SerializedPrefix(calls, k + 1);
    SameOnPrefix(c, calls, k + 1, k);
    NoTripMeansSlow(c, calls[..k + 1], p);
  }

  /**
   The trip in plain terms: a failing call trips the breaker if and only if, with it, `threshold` calls have
   failed within the window and no call has succeeded or tripped since the first of them.
   */
  lemma TripsIffBurst(c: Settings, calls: seq<Call>, k: nat)
    requires c.threshold >= 1 && Serialized(calls) && k < |calls| && FailedAt(c, calls, k)
    ensures TripsAt(c, calls, k) <==>
            exists p: nat :: Burst(c, calls, p, k) && calls[k].doneAt - calls[p].doneAt <= c.failureWindow
  {
    if TripsAt(c, calls, k) {
      var p := TripHasBurst(c, calls, k);
    } else if p: nat :| Burst(c, calls, p, k) && calls[k].doneAt - calls[p].doneAt <= c.failureWindow {
      CalmBurstIsSlow(c, calls, p, k);
    }
  }

  // ------------------------------------------------------------------ objects

  /** The breaker's mutable state: the deque of failures and the opening instant. */
  class CircuitBreaker {
    const settings: Settings
    var failures: seq<Instant>
    var openedAt: Option<Instant>

    constructor (settings: Settings)
      ensures this.settings == settings && State() == CLOSED
    {
      this.settings := settings;
      failures := [];
      openedAt := None;
    }

    function State(): Breaker
      reads this
    {
      Breaker(failures, openedAt)
    }

    method IsOpen(now: Instant) returns (open: bool)
      modifies this
      ensures open == Holds(settings, old(State()), now)
      ensures State() == Probed(settings, old(State()), now)
    {
      if openedAt.None? {
        return false;
      }
      if now - openedAt.value >= settings.openDuration {
        openedAt := None;
        failures := [];
        return false;
      }
      return true;
    }

    method RecordSuccess()
      modifies this
      ensures State() == CLOSED
    {
      failures := [];
      openedAt := None;
    }

    method RecordFailure(now: Instant)
      modifies this
      ensures State() == Failed(settings, old(State()), now)
    {
      failures := failures + [now];
      while failures != [] && now - failures[0] > settings.failureWindow
        invariant openedAt == old(openedAt)
        invariant Recent(failures, now, settings.failureWindow)
               == Recent(old(failures) + [now], now, settings.failureWindow)
        decreases |failures|
      {
        failures := failures[1..];
      }
      if |failures| >= settings.threshold {
        openedAt := Some(now);
      }
    }
  }

  /** The suggester wrapper: one `Suggest` is one call of the run. */
  class SuggesterCircuitBreaker {
    const breaker: CircuitBreaker
    ghost var calls: seq<Call>

    ghost predicate Valid()
      reads this, breaker
    {
      breaker.State() == After(breaker.settings, calls)
    }

    constructor (breaker: CircuitBreaker)
      requires breaker.State() == CLOSED
      ensures Valid() && this.breaker == breaker && calls == []
    {
      this.breaker := breaker;
      calls := [];
    }

    /** `call.inner` and `call.doneAt` are the environment's: they matter only when the call is let through. */
    method Suggest(call: Call) returns (reply: Reply)
      requires Valid()
      modifies this, breaker
      ensures Valid()
      ensures calls == old(calls) + [call]
      ensures reply == if Invoked(breaker.settings, calls, |calls| - 1) then Passed(call.inner) else CircuitOpen
    {
      calls := calls + [call];
      assert calls[..|calls| - 1] == old(calls);
      var open := breaker.IsOpen(call.askedAt);
      if open {
        return CircuitOpen;
      }
      match call.inner {
        case Answered => breaker.RecordSuccess();
        case Refused => breaker.RecordFailure(call.doneAt);
        case Crashed =>
      }
      return Passed(call.inner);
    }
  }
}
