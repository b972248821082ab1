/**
 The rate limiters of the rule-suggester pipeline: one token bucket per key, refilled linearly.
 The module proves that a bucket is exactly the greedy, maximal limiter for its capacity and
 window: it grants a call whenever granting keeps every window within the bound, and never more.
 */
module TokenBucket {
  import opened Common

  datatype Limits = Limits(capacity: nat, window: real) {
    /** What the constructor of the limiter insists on. */
    predicate Valid() { capacity >= 1 && window > 0.0 }

    /** `capacity` calls at once and `capacity` more for every `window`: so many fit into `elapsed` seconds. */
    predicate Fits(calls: nat, elapsed: real) {
      (calls as real - capacity as real) * window <= capacity as real * elapsed
    }

    /** Tokens that flow in during `elapsed` seconds. */
    function Inflow(elapsed: real): real
      requires Valid()
    {
      elapsed / window * capacity as real
    }
  }

  datatype Bucket = Bucket(tokens: real, lastRefill: Instant)

  datatype Call = Call(key: string, now: Instant)

  // ---------------------------------------------------------------- one call

  /** The bucket a call looks at: fresh for a new key, refilled when the clock moved forward. */
  function Refilled(l: Limits, b: Option<Bucket>, now: Instant): Bucket
    requires l.Valid()
  {
    match b
    case None => Bucket(l.capacity as real, now)
    case Some(b) =>
      var elapsed := now - b.lastRefill;
      if elapsed > 0.0
      then Bucket(Min(l.capacity as real, b.tokens + l.Inflow(elapsed)), now)
      else b
  }

  /** The bucket a call leaves behind. */
  function Taken(b: Bucket): Bucket {
    if b.tokens >= 1.0 then b.(tokens := b.tokens - 1.0) else b
  }

  // ------------------------------------------------------ all calls of a limiter

  /** The bucket table after a history of calls. */
  function Replay(l: Limits, calls: seq<Call>): map<string, Bucket>
    requires l.Valid()
  {
    if calls == [] then map[]
    else
      var before := Replay(l, calls[..|calls| - 1]);
      var c := calls[|calls| - 1];
      before[c.key := Taken(Refilled(l, Lookup(before, c.key), c.now))]
  }

  /** Was the last call of this history granted? */
  predicate Granted(l: Limits, calls: seq<Call>)
    requires l.Valid() && calls != []
  {
    var c := calls[|calls| - 1];
    Refilled(l, Lookup(Replay(l, calls[..|calls| - 1]), c.key), c.now).tokens >= 1.0
  }

  /** Number of granted calls on `key` among positions `from` and later. */
  function GrantedFrom(l: Limits, calls: seq<Call>, key: string, from: nat): nat
    requires l.Valid()
  {
    if |calls| <= from then 0
    else GrantedFrom(l, calls[..|calls| - 1], key, from)
         + if calls[|calls| - 1].key == key && Granted(l, calls) then 1 else 0
  }

  // ---------------------------------------------------------- one key on its own

  /** The clock readings of the calls on one key. */
  function Readings(calls: seq<Call>, key: string): (rs: seq<Instant>)
    ensures |rs| <= |calls|
  {
    if calls == [] then []
    else
      var c := calls[|calls| - 1];
      Readings(calls[..|calls| - 1], key) + if c.key == key then [c.now] else []
  }

  function Alone(l: Limits, rs: seq<Instant>): Option<Bucket>
    requires l.Valid()
  {
    if rs == [] then None
    else Some(Taken(Refilled(l, Alone(l, rs[..|rs| - 1]), rs[|rs| - 1])))
  }

  /** Tokens in the bucket when the last of these calls is decided. */
  function TokensAt(l: Limits, rs: seq<Instant>): real
    requires l.Valid() && rs != []
  {
    Refilled(l, Alone(l, rs[..|rs| - 1]), rs[|rs| - 1]).tokens
  }

  predicate GrantedAlone(l: Limits, rs: seq<Instant>)
    requires l.Valid() && rs != []
  {
    TokensAt(l, rs) >= 1.0
  }

  /** Grants among calls `from`, `from + 1`, ... of a single-key history. */
  function Grants(l: Limits, rs: seq<Instant>, from: nat): nat
    requires l.Valid()
  {
    if |rs| <= from then 0
    else Grants(l, rs[..|rs| - 1], from) + if GrantedAlone(l, rs) then 1 else 0
  }

  /** The running maximum of the clock: the source never refills for a clock that steps back. */
  function Latest(rs: seq<Instant>): (m: Instant)
    requires rs != []
    ensures m in rs && forall r :: r in rs ==> r <= m
  {
    if |rs| == 1 then rs[0]
    else
      var m := Latest(rs[..|rs| - 1]);
      assert forall r :: r in rs ==> r in rs[..|rs| - 1] || r == rs[|rs| - 1];
      Max(m, rs[|rs| - 1])
  }

  /** The bound on calls `i .. |rs|-1`: a full bucket plus the inflow since call `i`. */
  function Allowance(l: Limits, rs: seq<Instant>, i: nat): real
    requires l.Valid() && i < |rs|
  {
    l.capacity as real + l.Inflow(Latest(rs) - Latest(rs[..i + 1]))
  }

  // -------------------------------------------------------------------- lemmas

  lemma InflowAdds(l: Limits, a: real, b: real)
    requires l.Valid()
    ensures l.Inflow(a) + l.Inflow(b) == l.Inflow(a + b)
  {
    assert a / l.window + b / l.window == (a + b) / l.window;
    assert (a / l.window + b / l.window) * l.capacity as real
        == a / l.window * l.capacity as real + b / l.window * l.capacity as real;
  }

  /** The rate: a whole window refills the whole capacity, and the inflow is proportional to the time. */
  lemma InflowIsRate(l: Limits, elapsed: real)
    requires l.Valid()
    ensures l.Inflow(elapsed) * l.window == l.capacity as real * elapsed
    ensures l.Inflow(l.window) == l.capacity as real
  {
    var share, full := elapsed / l.window, l.capacity as real;
    assert share * full * l.window == share * l.window * full;
    assert l.window / l.window == 1.0;
  }

  /** A number of calls is within capacity plus inflow exactly when it fits the rate. */
  lemma FitsIff(l: Limits, calls: nat, elapsed: real)
    requires l.Valid()
    ensures l.Fits(calls, elapsed) <==> calls as real <= l.capacity as real + l.Inflow(elapsed)
  {
    InflowIsRate(l, elapsed);
    ScaledOrder(calls as real - l.capacity as real, l.Inflow(elapsed), l.window);
  }

  lemma FewerFit(l: Limits, fewer: nat, calls: nat, elapsed: real)
    requires l.Valid() && fewer <= calls && l.Fits(calls, elapsed)
    ensures l.Fits(fewer, elapsed)
  {
    ScaledOrder(fewer as real - l.capacity as real, calls as real - l.capacity as real, l.window);
  }

  lemma ScaledOrder(a: real, b: real, scale: real)
    requires scale > 0.0
    ensures a <= b <==> a * scale <= b * scale
  {
    assert (b - a) * scale == b * scale - a * scale;
  }

  lemma InflowGrows(l: Limits, a: real, b: real)
    requires l.Valid() && a <= b
    ensures l.Inflow(a) <= l.Inflow(b)
    ensures l.Inflow(0.0) == 0.0
  {
    InflowAdds(l, a, b - a);
    assert (b - a) / l.window >= 0.0;
    assert (b - a) / l.window * l.capacity as real >= 0.0;
    InflowAdds(l, 0.0, 0.0);
  }

  /** Each key behaves as if it were alone: its bucket depends on its own readings only. */
  lemma {:induction false} KeyAlone(l: Limits, calls: seq<Call>, key: string)
    requires l.Valid()
    ensures Lookup(Replay(l, calls), key) == Alone(l, Readings(calls, key))
    ensures calls != [] && calls[|calls| - 1].key == key ==>
              Readings(calls, key) != [] && (Granted(l, calls) <==> GrantedAlone(l, Readings(calls, key)))
  {
    if calls != [] {
      var c := calls[|calls| - 1];
      KeyAlone(l, calls[..|calls| - 1], key);
      if c.key == key {
        var rs := Readings(calls, key);
        assert rs[..|rs| - 1] == Readings(calls[..|calls| - 1], key);
      } else {
        assert Readings(calls, key) == Readings(calls[..|calls| - 1], key);
      }
    }
  }

  /** The bucket's last refill is the running maximum of the clock, and it never overfills. */
  lemma {:induction false} AloneState(l: Limits, rs: seq<Instant>)
    requires l.Valid() && rs != []
    ensures Alone(l, rs).Some? && Alone(l, rs).value.lastRefill == Latest(rs)
    ensures TokensAt(l, rs) <= l.capacity as real
  {
    var prev := rs[..|rs| - 1];
    if prev != [] {
      AloneState(l, prev);
    }
  }

  /** One more call: the tokens at hand are last time's remainder plus the inflow, capped. */
  lemma TokensStep(l: Limits, rs: seq<Instant>)
    requires l.Valid() && |rs| >= 2
    ensures var prev := rs[..|rs| - 1];
            var left := TokensAt(l, prev) - (if GrantedAlone(l, prev) then 1.0 else 0.0);
            TokensAt(l, rs) == Min(l.capacity as real, left + l.Inflow(Latest(rs) - Latest(prev)))
  {
    var prev := rs[..|rs| - 1];
    AloneState(l, prev);
    AloneState(l, rs);
    InflowGrows(l, 0.0, 0.0);
  }

  /** What the bound on calls `i ..` still leaves open when the last call is decided. */
  function Slack(l: Limits, rs: seq<Instant>, i: nat): real
    requires l.Valid() && i < |rs|
  {
    Allowance(l, rs, i) - Grants(l, rs[..|rs| - 1], i) as real
  }

  lemma AllowanceStep(l: Limits, rs: seq<Instant>, i: nat)
    requires l.Valid() && i < |rs| - 1
    ensures var prev := rs[..|rs| - 1];
            Allowance(l, rs, i) == Allowance(l, prev, i) + l.Inflow(Latest(rs) - Latest(prev))
  {
    var prev := rs[..|rs| - 1];
    assert prev[..i + 1] == rs[..i + 1];
    InflowAdds(l, Latest(prev) - Latest(prev[..i + 1]), Latest(rs) - Latest(prev));
  }

  lemma SlackStep(l: Limits, rs: seq<Instant>, i: nat)
    requires l.Valid() && i < |rs| - 1
    ensures var prev := rs[..|rs| - 1];
            Slack(l, rs, i) == Slack(l, prev, i) - (if GrantedAlone(l, prev) then 1.0 else 0.0)
                               + l.Inflow(Latest(rs) - Latest(prev))
  {
    AllowanceStep(l, rs, i);
  }

  lemma LastSlack(l: Limits, rs: seq<Instant>)
    requires l.Valid() && rs != []
    ensures Slack(l, rs, |rs| - 1) == l.capacity as real
  {
    assert rs[..|rs|] == rs;
    InflowGrows(l, 0.0, 0.0);
  }

  /** No window leaves less open than the tokens at hand. */
  lemma {:induction false} TokensWithinSlack(l: Limits, rs: seq<Instant>, i: nat)
    requires l.Valid() && i < |rs|
    ensures TokensAt(l, rs) <= Slack(l, rs, i)
  {
    if i == |rs| - 1 {
      AloneState(l, rs);
      LastSlack(l, rs);
    } else {
      TokensWithinSlack(l, rs[..|rs| - 1], i);
      TokensStep(l, rs);
      SlackStep(l, rs, i);
    }
  }

  /** Some window leaves exactly the tokens at hand open. */
  lemma {:induction false} SomeSlackIsTight(l: Limits, rs: seq<Instant>) returns (i: nat)
    requires l.Valid() && rs != []
    ensures i < |rs| && TokensAt(l, rs) == Slack(l, rs, i)
  {
    i := |rs| - 1;
    LastSlack(l, rs);
    if TokensAt(l, rs) != l.capacity as real {
      assert |rs| > 1;
      i := SomeSlackIsTight(l, rs[..|rs| - 1]);
      TokensStep(l, rs);
      SlackStep(l, rs, i);
    }
  }

  /**
   The bucket is exactly the limiter its two numbers describe, whatever the clock does: a call is
   granted if and only if, for every earlier call, the grants since then plus this one stay within
   capacity plus inflow.
   */
  lemma GrantedIffWithinEveryWindow(l: Limits, rs: seq<Instant>)
    requires l.Valid() && rs != []
    ensures GrantedAlone(l, rs) <==>
            forall i :: 0 <= i < |rs| ==>
              Grants(l, rs[..|rs| - 1], i) as real + 1.0 <= Allowance(l, rs, i)
  {
    if !GrantedAlone(l, rs) {
      var i := SomeSlackIsTight(l, rs);
    } else {
      forall i | 0 <= i < |rs|
        ensures Grants(l, rs[..|rs| - 1], i) as real + 1.0 <= Allowance(l, rs, i)
      {
        TokensWithinSlack(l, rs, i);
      }
    }
  }

  /** The rate leaves room for one more grant since call `i`. */
  predicate Room(l: Limits, rs: seq<Instant>, i: nat)
    requires l.Valid() && i < |rs|
  {
    l.Fits(Grants(l, rs[..|rs| - 1], i) + 1, Latest(rs) - Latest(rs[..i + 1]))
  }

  lemma RoomIff(l: Limits, rs: seq<Instant>, i: nat)
    requires l.Valid() && i < |rs|
    ensures Room(l, rs, i) <==> Grants(l, rs[..|rs| - 1], i) as real + 1.0 <= Allowance(l, rs, i)
  {
    FitsIff(l, Grants(l, rs[..|rs| - 1], i) + 1, Latest(rs) - Latest(rs[..i + 1]));
  }

  /**
   The same statement for a call on any key of a limiter shared by many keys, with the rate in plain
   numbers: a call is granted if and only if, counted from any earlier call, it fits into `capacity` calls
   at once and `capacity` for every `window`.
   */
  lemma LimiterIsExact(l: Limits, calls: seq<Call>)
    requires l.Valid() && calls != []
    ensures var rs := Readings(calls, calls[|calls| - 1].key);
            rs != [] && (Granted(l, calls) <==> forall i :: 0 <= i < |rs| ==> Room(l, rs, i))
  {
    var key := calls[|calls| - 1].key;
    var rs := Readings(calls, key);
    KeyAlone(l, calls, key);
    GrantedIffWithinEveryWindow(l, rs);
    forall i | 0 <= i < |rs|
      ensures Room(l, rs, i) <==> Grants(l, rs[..|rs| - 1], i) as real + 1.0 <= Allowance(l, rs, i)
    {
      RoomIff(l, rs, i);
    }
  }

  /** Over any stretch of calls the grants are within the bound of that stretch. */
  lemma {:induction false} StretchBound(l: Limits, rs: seq<Instant>, i: nat)
    requires l.Valid() && i < |rs|
    ensures Grants(l, rs, i) as real <= Allowance(l, rs, i)
  {
    if GrantedAlone(l, rs) {
      GrantedIffWithinEveryWindow(l, rs);
    } else if i == |rs| - 1 {
      assert rs[..i + 1] == rs;
      InflowGrows(l, 0.0, 0.0);
    } else {
      var prev := rs[..|rs| - 1];
      StretchBound(l, prev, i);
      assert prev[..i + 1] == rs[..i + 1];
      InflowGrows(l, Latest(prev) - Latest(prev[..i + 1]), Latest(rs) - Latest(rs[..i + 1]));
    }
  }

  lemma {:induction false} ReadingsSplit(calls: seq<Call>, key: string, from: nat)
    requires from <= |calls|
    ensures Readings(calls, key) == Readings(calls[..from], key) + Readings(calls[from..], key)
  {
    if from == |calls| {
      assert calls[..from] == calls;
    } else {
      var prev := calls[..|calls| - 1];
      ReadingsSplit(prev, key, from);
      assert prev[..from] == calls[..from];
      assert calls[from..][..|calls[from..]| - 1] == prev[from..];
    }
  }

  lemma {:induction false} ReadingsAreReadings(calls: seq<Call>, key: string)
    ensures forall r :: r in Readings(calls, key) ==>
              exists k :: 0 <= k < |calls| && calls[k].key == key && calls[k].now == r
  {
    if calls != [] {
      var prev := calls[..|calls| - 1];
      ReadingsAreReadings(prev, key);
      forall r | r in Readings(calls, key)
        ensures exists k :: 0 <= k < |calls| && calls[k].key == key && calls[k].now == r
      {
        if r in Readings(prev, key) {
          var k :| 0 <= k < |prev| && prev[k].key == key && prev[k].now == r;
          assert calls[k] == prev[k];
        } else {
          assert calls[|calls| - 1].key == key && calls[|calls| - 1].now == r;
        }
      }
    }
  }

  /** Grants on a key of the shared limiter are the grants of the key on its own. */
  lemma {:induction false} GrantsOfKey(l: Limits, calls: seq<Call>, key: string, from: nat)
    requires l.Valid() && from <= |calls|
    ensures GrantedFrom(l, calls, key, from)
         == Grants(l, Readings(calls, key), |Readings(calls[..from], key)|)
  {
    if from == |calls| {
      assert calls[..from] == calls;
    } else {
      var prev := calls[..|calls| - 1];
      GrantsOfKey(l, prev, key, from);
      assert prev[..from] == calls[..from];
      ReadingsSplit(prev, key, from);
      var rs := Readings(calls, key);
      if calls[|calls| - 1].key == key {
        KeyAlone(l, calls, key);
        assert rs[..|rs| - 1] == Readings(prev, key);
      } else {
        assert rs == Readings(prev, key);
      }
    }
  }

  /** Over the part of a history after `from`, a key is granted at most a full bucket plus the inflow. */
  lemma IntervalInflow(l: Limits, calls: seq<Call>, key: string, from: nat, start: Instant, end: Instant)
    requires l.Valid() && from <= |calls| && start <= end
    requires forall k :: from <= k < |calls| && calls[k].key == key ==> start <= calls[k].now
    requires forall k :: 0 <= k < |calls| && calls[k].key == key ==> calls[k].now <= end
    ensures GrantedFrom(l, calls, key, from) as real <= l.capacity as real + l.Inflow(end - start)
  {
    var rs := Readings(calls, key);
    var i := |Readings(calls[..from], key)|;
    GrantsOfKey(l, calls, key, from);
    ReadingsWithin(calls, key, from, start, end);
    if i < |rs| {
      TailBound(l, rs, i, start, end);
    } else {
      InflowGrows(l, 0.0, end - start);
    }
  }

  /** That is, `capacity` calls and `capacity` more for every `window` of the time that part spans. */
  lemma IntervalBound(l: Limits, calls: seq<Call>, key: string, from: nat, start: Instant, end: Instant)
    requires l.Valid() && from <= |calls| && start <= end
    requires forall k :: from <= k < |calls| && calls[k].key == key ==> start <= calls[k].now
    requires forall k :: 0 <= k < |calls| && calls[k].key == key ==> calls[k].now <= end
    ensures l.Fits(GrantedFrom(l, calls, key, from), end - start)
  {
    IntervalInflow(l, calls, key, from, start, end);
    FitsIff(l, GrantedFrom(l, calls, key, from), end - start);
  }

  /** The same for a number of calls that are known to have been granted. */
  lemma FewerWithinInterval(l: Limits, calls: seq<Call>, key: string, from: nat, start: Instant, end: Instant,
                            fewer: nat)
    requires l.Valid() && from <= |calls| && start <= end && fewer <= GrantedFrom(l, calls, key, from)
    requires forall k :: from <= k < |calls| && calls[k].key == key ==> start <= calls[k].now
    requires forall k :: 0 <= k < |calls| && calls[k].key == key ==> calls[k].now <= end
    ensures l.Fits(fewer, end - start)
  {
    IntervalBound(l, calls, key, from, start, end);
    FewerFit(l, fewer, GrantedFrom(l, calls, key, from), end - start);
  }

  lemma TailBound(l: Limits, rs: seq<Instant>, i: nat, start: Instant, end: Instant)
    requires l.Valid() && i < |rs| && start <= rs[i] && forall r :: r in rs ==> r <= end
    ensures Grants(l, rs, i) as real <= l.capacity as real + l.Inflow(end - start)
  {
    StretchBound(l, rs, i);
    assert rs[..i + 1][i] == rs[i];
    InflowGrows(l, Latest(rs) - Latest(rs[..i + 1]), end - start);
  }

  lemma ReadingsWithin(calls: seq<Call>, key: string, from: nat, start: Instant, end: Instant)
    requires from <= |calls|
    requires forall k :: from <= k < |calls| && calls[k].key == key ==> start <= calls[k].now
    requires forall k :: 0 <= k < |calls| && calls[k].key == key ==> calls[k].now <= end
    ensures forall r :: r in Readings(calls, key) ==> r <= end
    ensures forall i :: |Readings(calls[..from], key)| <= i < |Readings(calls, key)| ==>
              start <= Readings(calls, key)[i]
  {
    ReadingsAreReadings(calls, key);
    ReadingsAreReadings(calls[from..], key);
    ReadingsSplit(calls, key, from);
    var head, tail := Readings(calls[..from], key), Readings(calls[from..], key);
    forall i | |head| <= i < |Readings(calls, key)|
      ensures start <= Readings(calls, key)[i]
    {
      assert Readings(calls, key)[i] == tail[i - |head|] && tail[i - |head|] in tail;
      var k :| 0 <= k < |calls[from..]| && calls[from..][k].key == key && calls[from..][k].now == tail[i - |head|];
      assert calls[from..][k] == calls[from + k];
    }
  }

  // ----------------------------------------------------------- maximality

  /** The number of `true`s among positions `from` and later. */
  function Accepted(choice: seq<bool>, from: nat): nat {
    if |choice| <= from then 0
    else Accepted(choice[..|choice| - 1], from) + if choice[|choice| - 1] then 1 else 0
  }

  /** Some other limiter's decisions on the same readings, within the rate on every stretch. */
  ghost predicate WithinBound(l: Limits, rs: seq<Instant>, choice: seq<bool>)
    requires l.Valid() && |choice| == |rs|
  {
    forall i, j :: 0 <= i < j <= |rs| ==> StretchFits(l, rs[..j], choice[..j], i)
  }

  predicate StretchFits(l: Limits, rs: seq<Instant>, choice: seq<bool>, i: nat)
    requires i < |rs|
  {
    l.Fits(Accepted(choice, i), Latest(rs) - Latest(rs[..i + 1]))
  }

  lemma StretchWithinAllowance(l: Limits, rs: seq<Instant>, choice: seq<bool>, i: nat)
    requires l.Valid() && i < |rs| && StretchFits(l, rs, choice, i)
    ensures Accepted(choice, i) as real <= Allowance(l, rs, i)
  {
    FitsIff(l, Accepted(choice, i), Latest(rs) - Latest(rs[..i + 1]));
  }

  lemma {:induction false} AcceptedSplit(choice: seq<bool>, i: nat)
    requires i <= |choice|
    ensures Accepted(choice, 0) == Accepted(choice[..i], 0) + Accepted(choice, i)
  {
    if i == |choice| {
      assert choice[..i] == choice;
    } else {
      var prev := choice[..|choice| - 1];
      AcceptedSplit(prev, i);
      assert prev[..i] == choice[..i];
    }
  }

  lemma {:induction false} GrantsSplit(l: Limits, rs: seq<Instant>, i: nat)
    requires l.Valid() && i <= |rs|
    ensures Grants(l, rs, 0) == Grants(l, rs[..i], 0) + Grants(l, rs, i)
  {
    if i == |rs| {
      assert rs[..i] == rs;
    } else {
      var prev := rs[..|rs| - 1];
      GrantsSplit(l, prev, i);
      assert prev[..i] == rs[..i];
    }
  }

  /** Where the bucket refuses and the other limiter accepts, the bucket is level since some call. */
  lemma RefusedAfterMore(l: Limits, rs: seq<Instant>, choice: seq<bool>) returns (i: nat)
    requires l.Valid() && rs != [] && |choice| == |rs| && WithinBound(l, rs, choice)
    requires !GrantedAlone(l, rs)
    ensures i < |rs| && Accepted(choice, i) <= Grants(l, rs, i)
  {
    var n := |rs|;
    GrantedIffWithinEveryWindow(l, rs);
    i :| 0 <= i < n && !(Grants(l, rs[..n - 1], i) as real + 1.0 <= Allowance(l, rs, i));
    assert choice[..n] == choice && rs[..n] == rs;
    assert StretchFits(l, rs[..n], choice[..n], i);
    StretchWithinAllowance(l, rs, choice, i);
    assert Grants(l, rs, i) == Grants(l, rs[..n - 1], i);
  }

  /** No limiter that respects the bound has ever granted more calls than the bucket. */
  lemma {:induction false} BucketIsMaximal(l: Limits, rs: seq<Instant>, choice: seq<bool>)
    requires l.Valid() && |choice| == |rs| && WithinBound(l, rs, choice)
    ensures Accepted(choice, 0) <= Grants(l, rs, 0)
    decreases |rs|
  {
    if rs != [] {
      if GrantedAlone(l, rs) {
        PrefixWithinBound(l, rs, choice, |rs| - 1);
        BucketIsMaximal(l, rs[..|rs| - 1], choice[..|rs| - 1]);
      } else {
        var i := RefusedAfterMore(l, rs, choice);
        PrefixWithinBound(l, rs, choice, i);
        BucketIsMaximal(l, rs[..i], choice[..i]);
        AcceptedSplit(choice, i);
        GrantsSplit(l, rs, i);
      }
    }
  }

  lemma PrefixWithinBound(l: Limits, rs: seq<Instant>, choice: seq<bool>, n: nat)
    requires l.Valid() && |choice| == |rs| && WithinBound(l, rs, choice) && n <= |rs|
    ensures WithinBound(l, rs[..n], choice[..n])
  {
    forall i, j | 0 <= i < j <= n
      ensures StretchFits(l, rs[..n][..j], choice[..n][..j], i)
    {
      assert choice[..n][..j] == choice[..j] && rs[..n][..j] == rs[..j];
      assert StretchFits(l, rs[..j], choice[..j], i);
    }
  }

  /** The limiter object: a table of buckets, changed in place by every `Acquire`. */
  class TokenBucketLimiter {
    const limits: Limits
    var buckets: map<string, Bucket>
    ghost var calls: seq<Call>

    ghost predicate Valid()
      reads this
    {
      limits.Valid() && buckets == Replay(limits, calls)
    }

    constructor (capacity: nat, window: real)
      requires Limits(capacity, window).Valid()
      ensures Valid() && limits == Limits(capacity, window) && calls == []
    {
      limits := Limits(capacity, window);
      buckets := map[];
      calls := [];
    }

    method Acquire(key: string, now: Instant) returns (granted: bool)
      requires Valid()
      modifies this
      ensures Valid()
      ensures calls == old(calls) + [Call(key, now)]
      ensures granted == Granted(limits, calls)
    {
      calls := calls + [Call(key, now)];
      assert calls[..|calls| - 1] == old(calls);
      ghost var refilled := Refilled(limits, Lookup(buckets, key), now);
      if key !in buckets {
        buckets := buckets[key := Bucket(limits.capacity as real, now)];
      } else {
        var elapsed := now - buckets[key].lastRefill;
        if elapsed > 0.0 {
          var refill := limits.Inflow(elapsed);
          buckets := buckets[key := Bucket(Min(limits.capacity as real, buckets[key].tokens + refill), now)];
        }
      }
      assert buckets == old(buckets)[key := refilled];
      if buckets[key].tokens >= 1.0 {
        buckets := buckets[key := buckets[key].(tokens := buckets[key].tokens - 1.0)];
        granted := true;
      } else {
        granted := false;
      }
    }
  }
}
