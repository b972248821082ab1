/** What is watched over a run, and how a check of it is answered. */
module Watching {
  import opened Common
  import opened Monitoring
  import opened NotificationPolicies
  import opened CheckDomain
  import opened WatchRuns
  import opened Text

  /** What `ensure_watching` takes, whatever the state. */
  predicate Acceptable(w: Wiring, d: Watched) {
    && d.checkerId in w.checkers && d.checkerId != ""
    && d.channels != [] && (forall text :: text in d.channels ==> Strip(text) != "")
    && FieldCount(d.cron) == 5
    && d.thresholds != [] && forall i, j :: 0 <= i < j < |d.thresholds| ==> d.thresholds[i] > d.thresholds[j]
  }

  lemma NoneBlankIff(texts: seq<string>)
    ensures (forall id :: id in ChannelIds(texts) ==> id != []) <==> forall text :: text in texts ==> Strip(text) != ""
  {
    var ids := ChannelIds(texts);
    forall text | text in texts
      ensures Strip(text) in ids
    {
      var i :| 0 <= i < |texts| && texts[i] == text;
      assert ids[i] == Strip(text);
    }
    forall id | id in ids
      ensures exists text :: text in texts && Strip(text) == id
    {
      var i :| 0 <= i < |ids| && ids[i] == id;
      assert texts[i] in texts;
    }
  }

  lemma AcceptsIff(w: Wiring, s: Watch, d: Watched)
    requires RowsValid(s)
    ensures Accepts(w, s, d) <==> Acceptable(w, d)
  {
    NoneBlankIff(d.channels);
    var existing := Lookup(s.repo, d.name);
    assert existing.Some? && existing.value.lastCheck.Some? ==> existing.value.lastCheck.value.Valid();
    assert ChannelIds(d.channels) == [] <==> d.channels == [];
  }

  /** The latest order to watch this name that has not been withdrawn. */
  function LatestWatched(w: Wiring, actions: seq<Action>, name: string): Option<Watched> {
    if actions == [] then None
    else
      match actions[|actions| - 1]
      case EnsureWatching(d) =>
        if d.name == name && Acceptable(w, d) then Some(d) else LatestWatched(w, actions[..|actions| - 1], name)
      case RemoveWatching(n) => if n == name then None else LatestWatched(w, actions[..|actions| - 1], name)
      case _ => LatestWatched(w, actions[..|actions| - 1], name)
  }

  /** Save for its last check, the row is what the order asked for. */
  predicate IsRowOf(row: MonitoredDomain, d: Watched) {
    && row.name == d.name && row.cron == d.cron && row.checkerId == d.checkerId && row.thresholds == d.thresholds
    && row.metadata == d.metadata && |row.channels| == |d.channels|
    && forall i :: 0 <= i < |d.channels| ==> row.channels[i] == Strip(d.channels[i])
  }

  lemma CheckKeepsRows(w: Wiring, s: Watch, c: CheckCall, name: string)
    requires w.retry.Valid()
    ensures name in AfterCheck(w, s, c).repo <==> name in s.repo
    ensures name in s.repo ==>
              AfterCheck(w, s, c).repo[name] == s.repo[name].(lastCheck := AfterCheck(w, s, c).repo[name].lastCheck)
  {
  }

  /**
   What is watched: over any run, a name is watched if and only if an acceptable order for it came after its
   last removal, and its row says what the latest such order says.
   */
  lemma {:induction false} RowsAreAsked(w: Wiring, actions: seq<Action>, name: string)
    requires LegalRun(w, actions)
    ensures var order, repo := LatestWatched(w, actions, name), Replay(w, actions).repo;
            (name in repo <==> order.Some?) && (order.Some? ==> IsRowOf(repo[name], order.value))
  {
    if actions != [] {
      var before, a := actions[..|actions| - 1], actions[|actions| - 1];
      RowsAreAsked(w, before, name);
      RowsStayValid(w, before);
      match a
      case EnsureWatching(d) => AcceptsIff(w, Replay(w, before), d);
      case CheckNow(c) => CheckKeepsRows(w, Replay(w, before), c, name);
      case _ =>
    }
  }

  /**
   How a check is answered: the channel resolver is asked, and can raise, exactly when there is an alert;
   otherwise the check's own reply comes back, or the reason why there was no check.
   */
  lemma ResponseIs(w: Wiring, s: Watch, c: CheckCall)
    requires w.retry.Valid() && LegalCheck(w, s, c)
    ensures ResponseTo(w, s, c) == ResolverRaised <==>
            c.resolved.None? && exists e, t :: Emits(w, s, CheckNow(c), c.name, e, t)
    ensures ResponseTo(w, s, c).Finished? ==>
              ResponseTo(w, s, c).reply == (if c.name !in s.repo then NotMonitored
                                            else if s.repo[c.name].checkerId !in w.checkers then NoChecker
                                            else EndingOf(w, s, c).reply)
  {
    if Checkable(w, s, c.name) && AlertsOf(w, s, c) != [] {
      var a := AlertsOf(w, s, c)[0];
      assert a == AlertOf(w.cycleId, c.name, a.expiresAt, a.threshold);
      EmitsIsAlert(w, s, c, a.expiresAt, a.threshold);
    }
    if e, t :| Emits(w, s, CheckNow(c), c.name, e, t) {
      EmitsIsAlert(w, s, c, e, t);
    }
  }
}
