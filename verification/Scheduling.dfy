/**
 The scheduler adapter: a mirror map of the jobs it asked for, beside the job store of the scheduling
 library. Cron expressions are parsed by the library and may be refused.
 */
module Scheduling {
  import opened Common
  import opened Monitoring
  import opened Text

  /** What the mirror remembers: the schedule text and the callable, by identity. */
  datatype Entry = Entry(cron: string, callable: nat)

  datatype Trigger = Cron(expression: string) | Every(seconds: nat)

  /** A job of the library; `serial` counts the `add_job` call that installed it. */
  datatype Job = Job(trigger: Trigger, callable: nat, serial: nat)

  type Mirror = map<string, Entry>

  type Store = map<string, Job>

  const REVALIDATION_ID := "revalidate-learned-rules"

  function JobId(name: string): string { "check:" + name }

  lemma JobIdIsNotRevalidation(name: string)
    ensures JobId(name) != REVALIDATION_ID
  {
    assert JobId(name)[0] == 'c';
  }

  /** The jobs a set of domains asks for; the last of several rows with one name counts. */
  function Target(domains: seq<MonitoredDomain>, factory: MonitoredDomain -> nat): (t: Mirror)
    ensures REVALIDATION_ID !in t
  {
    if domains == [] then map[]
    else
      var d := domains[|domains| - 1];
      JobIdIsNotRevalidation(d.name);
      Target(domains[..|domains| - 1], factory)[JobId(d.name) := Entry(d.cron, factory(d))]
  }

  /** The last of the rows with this row's name. */
  ghost predicate LastOfName(domains: seq<MonitoredDomain>, n: nat) {
    n < |domains| && forall m :: n < m < |domains| ==> domains[m].name != domains[n].name
  }

  /** What the row at `n` asks for, under this id. */
  predicate AsksFor(domains: seq<MonitoredDomain>, factory: MonitoredDomain -> nat, n: nat, id: string, entry: Entry)
    requires n < |domains|
  {
    var d := domains[n];
    id == "check:" + d.name && entry.cron == d.cron && entry.callable == factory(d)
  }

  /** It asks for it on behalf of its name. */
  ghost predicate Decides(domains: seq<MonitoredDomain>, factory: MonitoredDomain -> nat, n: nat, id: string,
                          entry: Entry)
  {
    LastOfName(domains, n) && AsksFor(domains, factory, n, id, entry)
  }

  lemma DecidesMore(domains: seq<MonitoredDomain>, factory: MonitoredDomain -> nat, n: nat, id: string, entry: Entry)
    requires domains != [] && n < |domains| - 1
    ensures Decides(domains, factory, n, id, entry) <==>
            Decides(domains[..|domains| - 1], factory, n, id, entry) && id != JobId(domains[|domains| - 1].name)
  {
    var before, last := domains[..|domains| - 1], domains[|domains| - 1];
    assert before[n] == domains[n];
    assert forall m :: n < m < |before| ==> before[m] == domains[m];
    if id == JobId(domains[n].name) {
      assert id[6..] == domains[n].name && JobId(last.name)[6..] == last.name;
    }
  }

  /**
   The target is made of the rows: it has an entry under an id if and only if that is the one the last row
   of some name asks for, with the row's cron and its callable.
   */
  lemma {:induction false} TargetIff(domains: seq<MonitoredDomain>, factory: MonitoredDomain -> nat, id: string,
                                     entry: Entry)
    ensures Lookup(Target(domains, factory), id) == Some(entry) <==>
            exists n: nat :: Decides(domains, factory, n, id, entry)
  {
    if domains != [] {
      var last := |domains| - 1;
      TargetIff(domains[..last], factory, id, entry);
      if id == JobId(domains[last].name) {
        if Lookup(Target(domains, factory), id) == Some(entry) {
          assert Decides(domains, factory, last, id, entry);
        }
        if n: nat :| Decides(domains, factory, n, id, entry) && n < last {
          DecidesMore(domains, factory, n, id, entry);
        }
      } else {
        if n: nat :| Decides(domains[..last], factory, n, id, entry) {
          DecidesMore(domains, factory, n, id, entry);
        }
        if n: nat :| Decides(domains, factory, n, id, entry) {
          DecidesMore(domains, factory, n, id, entry);
        }
      }
    }
  }

  function IntervalText(seconds: nat): string { "interval:" + Decimal(seconds) + "s" }

  /** The library's job is the one that the mirror describes. */
  predicate Reflects(id: string, entry: Entry, job: Job) {
    && job.callable == entry.callable
    && (if id == REVALIDATION_ID
        then job.trigger.Every? && entry.cron == IntervalText(job.trigger.seconds)
        else job.trigger == Cron(entry.cron))
  }

  ghost predicate Mirrors(jobs: Mirror, store: Store) {
    && jobs.Keys == store.Keys
    && forall id :: id in jobs ==> Reflects(id, jobs[id], store[id])
  }

  // ---------------------------------------------------- reconciling, as a relation

  predicate UpToDate(jobs: Mirror, target: Mirror, id: string)
    requires id in target
  {
    Lookup(jobs, id) == Some(target[id])
  }

  /** The library does not refuse what the target asks for under this id. */
  predicate Accepts(parses: string -> bool, jobs: Mirror, target: Mirror, id: string)
    requires id in target
  {
    UpToDate(jobs, target, id) || parses(target[id].cron)
  }

  ghost predicate Schedulable(parses: string -> bool, jobs: Mirror, target: Mirror) {
    forall id :: id in target ==> Accepts(parses, jobs, target, id)
  }

  /** The job stays exactly as installed: same library job, same serial. */
  predicate Untouched(before: Store, after: Store, id: string) {
    id in before && id in after && after[id] == before[id]
  }

  /** The mirror once `target` is reached: the revalidation job is not the domains' business. */
  function Settled(jobs: Mirror, target: Mirror): Mirror {
    if REVALIDATION_ID in jobs then target[REVALIDATION_ID := jobs[REVALIDATION_ID]] else target
  }

  ghost predicate KeepsUpToDate(jobs: Mirror, target: Mirror, before: Store, after: Store) {
    && (forall id :: id in target && UpToDate(jobs, target, id) ==> Untouched(before, after, id))
    && (REVALIDATION_ID in jobs ==> Untouched(before, after, REVALIDATION_ID))
  }

  /** Part of the way: the target's ids are as it wants them, save those in `left`, which are as they were. */
  ghost predicate Reached(before: Mirror, target: Mirror, jobs: Mirror, left: set<string>) {
    forall id :: Lookup(jobs, id) == Lookup(if id in target && id !in left then target else before, id)
  }

  /** Jobs that the target does not mention, or that are right already, have not been touched. */
  ghost predicate Undisturbed(jobs: Mirror, target: Mirror, before: Store, after: Store) {
    forall id :: id in before && (id !in target || UpToDate(jobs, target, id)) ==> Untouched(before, after, id)
  }

  /** One job was installed, replaced or left alone; the others were left alone. */
  ghost predicate Installed(j0: Mirror, j1: Mirror, s0: Store, s1: Store, id: string, entry: Entry) {
    && Lookup(j1, id) == Some(entry)
    && (forall other :: other != id ==> Lookup(j1, other) == Lookup(j0, other))
    && (forall other :: other in s0 && (other != id || Lookup(j0, id) == Some(entry)) ==> Untouched(s0, s1, other))
  }

  ghost predicate Progress(parses: string -> bool, before: Mirror, target: Mirror, s0: Store,
                           jobs: Mirror, store: Store, left: set<string>)
  {
    && Reached(before, target, jobs, left)
    && Undisturbed(before, target, s0, store)
    && forall id :: id in target && id !in left ==> Accepts(parses, before, target, id)
  }

  lemma OneMore(parses: string -> bool, before: Mirror, target: Mirror, s0: Store, jobs: Mirror, store: Store,
                left: set<string>, id: string, jobs': Mirror, store': Store)
    requires Progress(parses, before, target, s0, jobs, store, left) && id in target && id in left
    requires Lookup(jobs, id) == Some(target[id]) || parses(target[id].cron)
    requires Installed(jobs, jobs', store, store', id, target[id])
    ensures Progress(parses, before, target, s0, jobs', store', left - {id})
  {
    assert Lookup(jobs, id) == Lookup(before, id);
  }

  lemma Refused(parses: string -> bool, before: Mirror, target: Mirror, s0: Store, jobs: Mirror, store: Store,
                left: set<string>, id: string)
    requires Progress(parses, before, target, s0, jobs, store, left) && id in target && id in left
    requires Lookup(jobs, id) != Some(target[id]) && !parses(target[id].cron)
    ensures !Accepts(parses, before, target, id)
  {
    assert Lookup(jobs, id) == Lookup(before, id);
  }

  lemma ReachedKeepsIds(before: Mirror, target: Mirror, jobs: Mirror, left: set<string>)
    requires Reached(before, target, jobs, left)
    ensures before.Keys <= jobs.Keys
  {
    forall id | id in before
      ensures id in jobs
    {
      assert Lookup(jobs, id).Some?;
    }
  }

  lemma ReachedIsUpToDate(before: Mirror, target: Mirror, jobs: Mirror)
    requires Reached(before, target, jobs, {}) && REVALIDATION_ID !in target
    ensures forall id :: id in target ==> UpToDate(jobs, target, id)
    ensures Settled(jobs, target) == Settled(before, target)
  {
    forall id | id in target
      ensures UpToDate(jobs, target, id)
    {
      assert Lookup(jobs, id) == Lookup(target, id);
    }
    assert Lookup(jobs, REVALIDATION_ID) == Lookup(before, REVALIDATION_ID);
  }

  /** While jobs are being dropped: those in `left` are still to be looked at. */
  ghost predicate Kept(before: Mirror, target: Mirror, jobs: Mirror, left: set<string>) {
    forall id :: Lookup(jobs, id)
              == if id in left || id in target || id == REVALIDATION_ID then Lookup(before, id) else None
  }

  lemma KeptOneMore(before: Mirror, target: Mirror, jobs: Mirror, jobs': Mirror, left: set<string>, id: string)
    requires Kept(before, target, jobs, left)
    requires jobs' == if id in target || id == REVALIDATION_ID then jobs else jobs - {id}
    ensures Kept(before, target, jobs', left - {id})
  {
  }

  ghost predicate Undropped(before: Store, after: Store, jobs: Mirror) {
    forall id :: id in jobs ==> Untouched(before, after, id)
  }

  /** Both halves together. */
  lemma HalvesKeepUpToDate(before: Mirror, target: Mirror, s0: Store, s1: Store, s2: Store)
    requires REVALIDATION_ID !in target && Mirrors(before, s0) && Undisturbed(before, target, s0, s1)
    requires Undropped(s1, s2, Settled(before, target))
    ensures KeepsUpToDate(before, target, s0, s2)
  {
    forall id | id in target && UpToDate(before, target, id)
      ensures Untouched(s0, s2, id)
    {
      assert id in s0 && id in Settled(before, target);
      assert Untouched(s0, s1, id) && Untouched(s1, s2, id);
    }
    if REVALIDATION_ID in before {
      assert REVALIDATION_ID in s0 && REVALIDATION_ID in Settled(before, target);
      assert Untouched(s0, s1, REVALIDATION_ID) && Untouched(s1, s2, REVALIDATION_ID);
    }
  }

  lemma FirstHalfKeepsUpToDate(before: Mirror, target: Mirror, s0: Store, s1: Store)
    requires REVALIDATION_ID !in target && Mirrors(before, s0) && Undisturbed(before, target, s0, s1)
    ensures KeepsUpToDate(before, target, s0, s1)
  {
    forall id | id in target && UpToDate(before, target, id)
      ensures Untouched(s0, s1, id)
    {
      assert id in s0;
    }
  }

  lemma KeptIsSettled(before: Mirror, target: Mirror, jobs: Mirror)
    requires REVALIDATION_ID !in target && Kept(before, target, jobs, {})
    requires forall id :: id in target ==> UpToDate(before, target, id)
    ensures jobs == Settled(before, target)
  {
    var settled := Settled(before, target);
    forall id
      ensures Lookup(jobs, id) == Lookup(settled, id)
    {
    }
    SameEntries(jobs, settled);
  }

  lemma SameEntries(a: Mirror, b: Mirror)
    requires forall id :: Lookup(a, id) == Lookup(b, id)
    ensures a == b
  {
    forall id
      ensures id in a <==> id in b
      ensures id in a && id in b ==> a[id] == b[id]
    {
      assert Lookup(a, id) == Lookup(b, id);
    }
  }

  /** The in-memory scheduler keeps an entry whose cron is unchanged, callable included. */
  function MemoryReconciled(jobs: Mirror, target: Mirror): Mirror {
    map id | id in target :: if id in jobs && jobs[id].cron == target[id].cron then jobs[id] else target[id]
  }

  function Crons(jobs: Mirror): map<string, string> {
    map id | id in jobs :: jobs[id].cron
  }

  // ------------------------------------------------------------------- lemmas

  /** A second reconciliation with the same target touches nothing at all. */
  lemma ReconcileIsIdempotent(jobs: Mirror, target: Mirror, before: Store, after: Store)
    requires REVALIDATION_ID !in target
    requires jobs == Settled(jobs, target) && Mirrors(jobs, before)
    requires KeepsUpToDate(jobs, target, before, after) && Mirrors(Settled(jobs, target), after)
    ensures after == before
  {
    forall id | id in before
      ensures id in after && after[id] == before[id]
    {
      if id != REVALIDATION_ID {
        assert id in target && UpToDate(jobs, target, id);
      }
    }
  }

  /** Both schedulers end with the same schedule for the same ids. */
  lemma SchedulersAgree(jobs: Mirror, target: Mirror, memory: Mirror)
    requires REVALIDATION_ID !in target
    ensures Crons(Settled(jobs, target) - {REVALIDATION_ID}) == Crons(MemoryReconciled(memory, target))
  {
  }

  /**
   They agree on the callables too if and only if the in-memory one holds no stale callable, that is,
   no job of the target with the right cron and another callable.
   */
  lemma SchedulersAgreeFullyIff(jobs: Mirror, target: Mirror, memory: Mirror)
    requires REVALIDATION_ID !in target
    ensures Settled(jobs, target) - {REVALIDATION_ID} == MemoryReconciled(memory, target) <==>
            forall id :: id in target && id in memory && memory[id].cron == target[id].cron
                         ==> memory[id].callable == target[id].callable
  {
    var aps, mem := Settled(jobs, target) - {REVALIDATION_ID}, MemoryReconciled(memory, target);
    assert aps == target;
    if forall id :: id in target && id in memory && memory[id].cron == target[id].cron
                    ==> memory[id].callable == target[id].callable {
      forall id | id in target
        ensures mem[id] == target[id]
      {
      }
      assert mem == target;
    } else {
      var id :| id in target && id in memory && memory[id].cron == target[id].cron
             && memory[id].callable != target[id].callable;
      assert mem[id] != target[id];
    }
  }

  /** Such a job: a domain keeps its cron, and only the callable is a new one. */
  lemma StaleCallableStays(name: string, cron: string, f: nat, g: nat)
    requires f != g
    ensures var memory, target := map[JobId(name) := Entry(cron, f)], map[JobId(name) := Entry(cron, g)];
            && MemoryReconciled(memory, target) == memory
            && Settled(memory, target) - {REVALIDATION_ID} == target != memory
  {
    JobIdIsNotRevalidation(name);
    var memory, target := map[JobId(name) := Entry(cron, f)], map[JobId(name) := Entry(cron, g)];
    assert memory[JobId(name)] != target[JobId(name)];
  }

  // ------------------------------------------------------------------ objects

  /** The library's job store. */
  class JobStore {
    var jobs: Store
    var added: nat

    constructor ()
      ensures jobs == map[] && added == 0
    {
      jobs, added := map[], 0;
    }

    /** The library refuses an id that is taken. */
    method AddJob(id: string, trigger: Trigger, callable: nat)
      requires id !in jobs
      modifies this
      ensures jobs == old(jobs)[id := Job(trigger, callable, old(added))]
      ensures added == old(added) + 1
    {
      jobs := jobs[id := Job(trigger, callable, added)];
      added := added + 1;
    }

    /** The library refuses an id that it does not know. */
    method RemoveJob(id: string)
      requires id in jobs
      modifies this
      ensures jobs == old(jobs) - {id} && added == old(added)
    {
      jobs := jobs - {id};
    }
  }

  class ApsScheduler {
    const scheduler: JobStore
    const parses: string -> bool
    var jobs: Mirror

    constructor (scheduler: JobStore, parses: string -> bool)
      requires scheduler.jobs == map[]
      ensures Valid() && this.scheduler == scheduler && this.parses == parses && jobs == map[]
    {
      this.scheduler := scheduler;
      this.parses := parses;
      jobs := map[];
    }

    /** The invariant every operation keeps, the ones that raise included. */
    ghost predicate Valid()
      reads this, scheduler
    {
      Mirrors(jobs, scheduler.jobs)
    }

    /** Install a cron job; false, with nothing changed, when the expression does not parse. */
    method AddApsJob(id: string, cron: string, callable: nat, replace: bool) returns (ok: bool)
      requires id in scheduler.jobs ==> replace
      modifies scheduler
      ensures ok <==> parses(cron)
      ensures ok ==> scheduler.jobs == old(scheduler.jobs)[id := Job(Cron(cron), callable, old(scheduler.added))]
      ensures !ok ==> scheduler.jobs == old(scheduler.jobs)
    {
      if !parses(cron) {
        return false;
      }
      if replace && id in scheduler.jobs {
        scheduler.RemoveJob(id);
      }
      scheduler.AddJob(id, Cron(cron), callable);
      return true;
    }

    /** False for a duplicate id or a bad cron. */
    method AddJob(name: string, cron: string, callable: nat) returns (ok: bool)
      requires Valid()
      modifies this, scheduler
      ensures Valid()
      ensures ok <==> JobId(name) !in old(jobs) && parses(cron)
      ensures jobs == if ok then old(jobs)[JobId(name) := Entry(cron, callable)] else old(jobs)
      ensures !ok ==> scheduler.jobs == old(scheduler.jobs)
    {
      var id := JobId(name);
      JobIdIsNotRevalidation(name);
      if id in jobs {
        return false;
      }
      ok := AddApsJob(id, cron, callable, false);
      if ok {
        jobs := jobs[id := Entry(cron, callable)];
      }
    }

    method AddOrUpdateJob(name: string, cron: string, callable: nat) returns (ok: bool)
      requires Valid()
      modifies this, scheduler
      ensures Valid()
      ensures ok <==> (JobId(name) in old(jobs) && old(jobs)[JobId(name)] == Entry(cron, callable)) || parses(cron)
      ensures jobs == if ok then old(jobs)[JobId(name) := Entry(cron, callable)] else old(jobs)
      ensures !ok || (JobId(name) in old(jobs) && old(jobs)[JobId(name)] == Entry(cron, callable)) ==>
                scheduler.jobs == old(scheduler.jobs)
      ensures forall id :: id != JobId(name) && id in old(scheduler.jobs) ==>
                Untouched(old(scheduler.jobs), scheduler.jobs, id)
    {
      var id := JobId(name);
      JobIdIsNotRevalidation(name);
      if id in jobs && jobs[id].cron == cron && jobs[id].callable == callable {
        return true;
      }
      ok := AddApsJob(id, cron, callable, true);
      if ok {
        jobs := jobs[id := Entry(cron, callable)];
      }
    }

    method RemoveJob(name: string)
      requires Valid()
      modifies this, scheduler
      ensures Valid()
      ensures jobs == old(jobs) - {JobId(name)} && scheduler.jobs == old(scheduler.jobs) - {JobId(name)}
    {
      Drop(JobId(name));
    }

    method Drop(id: string)
      requires Valid()
      modifies this, scheduler
      ensures Valid()
      ensures jobs == old(jobs) - {id} && scheduler.jobs == old(scheduler.jobs) - {id}
    {
      if id !in jobs {
        assert jobs - {id} == jobs && scheduler.jobs - {id} == scheduler.jobs;
        return;
      }
      if id in scheduler.jobs {
        scheduler.RemoveJob(id);
      }
      jobs := jobs - {id};
    }

    /** One job of the target: install it, replace it, or leave it alone. */
    method AddOrUpdate(id: string, entry: Entry) returns (ok: bool)
      requires Valid() && id != REVALIDATION_ID
      modifies this, scheduler
      ensures Valid()
      ensures ok <==> Lookup(old(jobs), id) == Some(entry) || parses(entry.cron)
      ensures ok ==> Installed(old(jobs), jobs, old(scheduler.jobs), scheduler.jobs, id, entry)
      ensures !ok ==> jobs == old(jobs) && scheduler.jobs == old(scheduler.jobs)
    {
      if id !in jobs {
        ok := AddApsJob(id, entry.cron, entry.callable, false);
      } else if jobs[id].cron != entry.cron || jobs[id].callable != entry.callable {
        ok := AddApsJob(id, entry.cron, entry.callable, true);
      } else {
        return true;
      }
      if ok {
        jobs := jobs[id := entry];
      }
    }

    /** First half of `reconcile`; it stops at the first cron that does not parse, that of id `bad`. */
    method AddOrUpdateAll(target: Mirror) returns (ok: bool, ghost bad: string)
      requires Valid() && REVALIDATION_ID !in target
      modifies this, scheduler
      ensures Valid()
      ensures ok ==>
                Progress(parses, old(jobs), target, old(scheduler.jobs), jobs, scheduler.jobs, {})
      ensures !ok ==> bad in target && !Accepts(parses, old(jobs), target, bad)
      ensures !ok ==> old(jobs).Keys <= jobs.Keys && Undisturbed(old(jobs), target, old(scheduler.jobs), scheduler.jobs)
    {
      var left := target.Keys;
      bad := "";
      while left != {}
        invariant Valid() && left <= target.Keys
        invariant Progress(parses, old(jobs), target, old(scheduler.jobs), jobs, scheduler.jobs, left)
        decreases |left|
      {
        var id :| id in left;
        ghost var before, store := jobs, scheduler.jobs;
        ok := AddOrUpdate(id, target[id]);
        if !ok {
          Refused(parses, old(jobs), target, old(scheduler.jobs), before, store, left, id);
          ReachedKeepsIds(old(jobs), target, before, left);
          return false, id;
        }
        OneMore(parses, old(jobs), target, old(scheduler.jobs), before, store, left, id, jobs, scheduler.jobs);
        left := left - {id};
      }
      return true, bad;
    }

    /** Second half of `reconcile`: remove the jobs that disappeared. */
    method RemoveOthers(target: Mirror)
      requires Valid() && REVALIDATION_ID !in target
      requires forall id :: id in target ==> UpToDate(jobs, target, id)
      modifies this, scheduler
      ensures Valid() && jobs == Settled(old(jobs), target)
      ensures Undropped(old(scheduler.jobs), scheduler.jobs, jobs)
    {
      var left := jobs.Keys;
      while left != {}
        invariant Valid() && left <= old(jobs).Keys
        invariant Kept(old(jobs), target, jobs, left)
        invariant Undropped(old(scheduler.jobs), scheduler.jobs, jobs)
        decreases |left|
      {
        var id :| id in left;
        ghost var before := jobs;
        if id !in target && id != REVALIDATION_ID {
          Drop(id);
        }
        KeptOneMore(old(jobs), target, before, jobs, left, id);
        left := left - {id};
      }
      KeptIsSettled(old(jobs), target, jobs);
    }

    /**
     The three-way difference. False stands for a bad cron, which leaves jobs added or updated so far
     and removes none. Otherwise exactly the target is scheduled, next to an untouched revalidation job,
     and jobs that were already right are not touched.
     */
    method Reconcile(domains: seq<MonitoredDomain>, factory: MonitoredDomain -> nat) returns (ok: bool)
      requires Valid()
      modifies this, scheduler
      ensures Valid()
      ensures var target := Target(domains, factory);
              && (ok <==> Schedulable(parses, old(jobs), target))
              && (ok ==> jobs == Settled(old(jobs), target))
              && (!ok ==> old(jobs).Keys <= jobs.Keys)
              && (!ok ==> Undisturbed(old(jobs), target, old(scheduler.jobs), scheduler.jobs))
              && KeepsUpToDate(old(jobs), target, old(scheduler.jobs), scheduler.jobs)
              && (old(jobs) == Settled(old(jobs), target) ==> ok && scheduler.jobs == old(scheduler.jobs))
    {
      var target := Target(domains, factory);
      ghost var store, before := scheduler.jobs, jobs;
      ghost var bad;
      ok, bad := AddOrUpdateAll(target);
      ghost var middle := scheduler.jobs;
      if ok {
        ReachedIsUpToDate(before, target, jobs);
        RemoveOthers(target);
        HalvesKeepUpToDate(before, target, store, middle, scheduler.jobs);
      } else {
        FirstHalfKeepsUpToDate(before, target, store, middle);
      }
      if ok && before == Settled(before, target) {
        ReconcileIsIdempotent(before, target, store, scheduler.jobs);
      }
    }

    /** False for an interval that is not positive. */
    method AddRevalidationJob(seconds: nat, callable: nat) returns (ok: bool)
      requires Valid()
      modifies this, scheduler
      ensures Valid()
      ensures ok <==> seconds > 0
      ensures jobs == if ok then old(jobs)[REVALIDATION_ID := Entry(IntervalText(seconds), callable)] else old(jobs)
      ensures ok ==> scheduler.jobs[REVALIDATION_ID] == Job(Every(seconds), callable, old(scheduler.added))
      ensures !ok ==> scheduler.jobs == old(scheduler.jobs)
      ensures forall id :: id != REVALIDATION_ID && id in old(scheduler.jobs) ==>
                Untouched(old(scheduler.jobs), scheduler.jobs, id)
    {
      if seconds == 0 {
        return false;
      }
      if REVALIDATION_ID in scheduler.jobs {
        scheduler.RemoveJob(REVALIDATION_ID);
      }
      scheduler.AddJob(REVALIDATION_ID, Every(seconds), callable);
      jobs := jobs[REVALIDATION_ID := Entry(IntervalText(seconds), callable)];
      return true;
    }

    method RemoveRevalidationJob()
      requires Valid()
      modifies this, scheduler
      ensures Valid() && jobs == old(jobs) - {REVALIDATION_ID}
      ensures scheduler.jobs == old(scheduler.jobs) - {REVALIDATION_ID}
    {
      if REVALIDATION_ID in scheduler.jobs {
        scheduler.RemoveJob(REVALIDATION_ID);
      }
      jobs := jobs - {REVALIDATION_ID};
    }
  }

  /** The in-memory scheduler. */
  class MemoryScheduler {
    var jobs: Mirror

    constructor ()
      ensures jobs == map[]
    {
      jobs := map[];
    }

    method AddOrUpdateAll(target: Mirror)
      modifies this
      ensures forall id :: Lookup(jobs, id)
                == Lookup(if id in target then MemoryReconciled(old(jobs), target) else old(jobs), id)
    {
      var left := target.Keys;
      ghost var goal := MemoryReconciled(jobs, target);
      while left != {}
        invariant left <= target.Keys
        invariant forall id :: Lookup(jobs, id) == Lookup(if id in target && id !in left then goal else old(jobs), id)
        decreases |left|
      {
        var id :| id in left;
        assert Lookup(jobs, id) == Lookup(old(jobs), id);
        if id !in jobs || jobs[id].cron != target[id].cron {
          jobs := jobs[id := target[id]];
        }
        left := left - {id};
      }
    }

    method RemoveOthers(target: Mirror)
      modifies this
      ensures forall id :: Lookup(jobs, id) == if id in target then Lookup(old(jobs), id) else None
    {
      var left := jobs.Keys;
      while left != {}
        invariant forall id :: Lookup(jobs, id) == if id in target || id in left then Lookup(old(jobs), id) else None
        decreases |left|
      {
        var id :| id in left;
        left := left - {id};
        if id !in target {
          jobs := jobs - {id};
        }
      }
    }

    method Reconcile(domains: seq<MonitoredDomain>, factory: MonitoredDomain -> nat)
      modifies this
      ensures jobs == MemoryReconciled(old(jobs), Target(domains, factory))
    {
      var target := Target(domains, factory);
      ghost var goal := MemoryReconciled(jobs, target);
      AddOrUpdateAll(target);
      RemoveOthers(target);
      forall id
        ensures Lookup(jobs, id) == Lookup(goal, id)
      {
      }
      SameEntries(jobs, goal);
    }
  }
}
