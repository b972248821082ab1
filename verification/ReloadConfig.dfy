/**
 Reconciling the plugin registry with a new configuration: a three-way difference of plugin specs by
 id, applied under the holder's lock.
 */
module ReloadConfig {
  import opened Common

  datatype PluginSpec = PluginSpec(id: string, kind: string, settings: map<string, string>)

  /** A live plugin: `serial` stands for the identity of the object, `spec` for what it embodies. */
  datatype Instance = Instance(serial: nat, spec: PluginSpec)

  datatype HookReply = Kept | Declined | HookRaised

  /** The factory may raise for a spec; the reload hook, if any, answers for an instance and a spec. */
  datatype Env = Env(builds: PluginSpec -> bool, hook: Option<(Instance, PluginSpec) -> HookReply>)

  type Items = map<string, Instance>

  type Specs = map<string, PluginSpec>

  /** The specs of a configuration by id; the last of several with one id counts. */
  function SpecMap(plugins: seq<PluginSpec>): (m: Specs)
    ensures forall id :: id in m ==> m[id].id == id
  {
    if plugins == [] then map[]
    else
      var last := plugins[|plugins| - 1];
      SpecMap(plugins[..|plugins| - 1])[last.id := last]
  }

  /** The spec at `n` is the last of its id. */
  ghost predicate LastOfId(plugins: seq<PluginSpec>, n: nat, spec: PluginSpec) {
    && n < |plugins| && plugins[n] == spec
    && forall m :: n < m < |plugins| ==> plugins[m].id != spec.id
  }

  /** A configuration asks for a spec if and only if it lists it and no later one with the same id. */
  lemma {:induction false} SpecMapIff(plugins: seq<PluginSpec>, spec: PluginSpec)
    ensures Lookup(SpecMap(plugins), spec.id) == Some(spec) <==> exists n: nat :: LastOfId(plugins, n, spec)
  {
    if plugins != [] {
      var last := |plugins| - 1;
      SpecMapIff(plugins[..last], spec);
      if plugins[last].id == spec.id {
        assert plugins[last] == spec ==> LastOfId(plugins, last, spec);
      } else {
        if n: nat :| LastOfId(plugins[..last], n, spec) {
          assert LastOfId(plugins, n, spec);
        }
        if n: nat :| LastOfId(plugins, n, spec) {
          assert LastOfId(plugins[..last], n, spec);
        }
      }
    }
  }

  function OldSpecs(prev: Option<seq<PluginSpec>>): Specs {
    if prev.Some? then SpecMap(prev.value) else map[]
  }

  /** The registry is in line with the specs at this id. */
  predicate InLine(items: Items, specs: Specs, id: string) {
    if id in specs then id in items && items[id].spec == specs[id] else id !in items
  }

  ghost predicate Matches(items: Items, specs: Specs) {
    forall id :: InLine(items, specs, id)
  }

  /** The hook absorbs the new settings, so the instance stays. */
  predicate Absorbs(env: Env, before: Option<Instance>, prev: PluginSpec, next: PluginSpec) {
    && prev.kind == next.kind && env.hook.Some? && before.Some?
    && env.hook.value(before.value, next) == Kept
  }

  /** Bringing this id in line needs a new object. */
  predicate NeedsBuild(env: Env, before: Option<Instance>, prev: Option<PluginSpec>, next: Option<PluginSpec>) {
    next.Some? && (prev.None? || (prev != next && !Absorbs(env, before, prev.value, next.value)))
  }

  /** What one id looks like after a reconciliation that reached it; `born` is the first fresh serial. */
  predicate Synced(env: Env, born: nat, prev: Option<PluginSpec>, next: Option<PluginSpec>,
                   before: Option<Instance>, after: Option<Instance>)
  {
    if prev.None? && next.None? then after == before
    else if next.None? then after == None
    else if prev == next then after == before
    else if NeedsBuild(env, before, prev, next) then
      after.Some? && after.value.spec == next.value && after.value.serial >= born
    else after == Some(before.value.(spec := next.value))
  }

  ghost predicate AllSynced(env: Env, born: nat, olds: Specs, news: Specs, before: Items, after: Items) {
    forall id :: Synced(env, born, Lookup(olds, id), Lookup(news, id), Lookup(before, id), Lookup(after, id))
  }

  /** The factory delivers for every id that needs a new object, and no added id is taken. */
  ghost predicate Feasible(env: Env, olds: Specs, news: Specs, before: Items) {
    && (forall id :: id in news ==> Buildable(env, olds, news, before, id))
    && (forall id :: id in news && id !in olds ==> id !in before)
  }

  predicate Buildable(env: Env, olds: Specs, news: Specs, before: Items, id: string)
    requires id in news
  {
    NeedsBuild(env, Lookup(before, id), Lookup(olds, id), Lookup(news, id)) ==> env.builds(news[id])
  }

  /** The update stops at this id: the factory raises for it, or it is new and its name is taken. */
  predicate Blocked(env: Env, olds: Specs, news: Specs, before: Items, id: string) {
    id in news && (!Buildable(env, olds, news, before, id) || (id !in olds && id in before))
  }

  /** How the source goes through a set of ids: sorted, whatever the order of strings is. */
  type Order = set<string> -> seq<string>

  predicate Distinct(ids: seq<string>) {
    forall i, j :: 0 <= i < j < |ids| ==> ids[i] != ids[j]
  }

  ghost predicate Sorts(order: Order) {
    forall ids :: Lists(order(ids), ids)
  }

  ghost predicate Lists(listed: seq<string>, ids: set<string>) {
    Distinct(listed) && forall id :: id in listed <==> id in ids
  }

  function Gone(order: Order, olds: Specs, news: Specs): seq<string> { order(olds.Keys - news.Keys) }

  function Added(order: Order, olds: Specs, news: Specs): seq<string> { order(news.Keys - olds.Keys) }

  function Staying(order: Order, olds: Specs, news: Specs): seq<string> { order(news.Keys * olds.Keys) }

  /** All ids of an update, in the order in which it gets to them. */
  function Plan(order: Order, olds: Specs, news: Specs): seq<string> {
    Gone(order, olds, news) + Added(order, olds, news) + Staying(order, olds, news)
  }

  /** How many ids an update gets through: those before the first one that stops it. */
  function Cut(env: Env, olds: Specs, news: Specs, before: Items, plan: seq<string>): (n: nat)
    ensures n <= |plan|
    ensures forall k :: 0 <= k < n ==> !Blocked(env, olds, news, before, plan[k])
    ensures n < |plan| ==> Blocked(env, olds, news, before, plan[n])
  {
    if plan == [] then 0
    else
      var n := Cut(env, olds, news, before, plan[..|plan| - 1]);
      if n < |plan| - 1 || Blocked(env, olds, news, before, plan[|plan| - 1]) then n else n + 1
  }

  lemma CutIs(env: Env, olds: Specs, news: Specs, before: Items, plan: seq<string>, n: nat)
    requires n <= |plan| && forall k :: 0 <= k < n ==> !Blocked(env, olds, news, before, plan[k])
    requires n < |plan| ==> Blocked(env, olds, news, before, plan[n])
    ensures Cut(env, olds, news, before, plan) == n
  {
  }

  /** The first `n` ids of the plan are in line, every other id is as it was. */
  ghost predicate Progress(env: Env, olds: Specs, news: Specs, before: Items, born: nat, items: Items,
                           plan: seq<string>, n: nat)
    requires n <= |plan|
  {
    forall id ::
      if id in plan[..n]
      then Synced(env, born, Lookup(olds, id), Lookup(news, id), Lookup(before, id), Lookup(items, id))
      else Lookup(items, id) == Lookup(before, id)
  }

  lemma OneMore(env: Env, olds: Specs, news: Specs, before: Items, born: nat, items: Items, items': Items,
                plan: seq<string>, n: nat)
    requires n < |plan| && Progress(env, olds, news, before, born, items, plan, n)
    requires forall other :: other != plan[n] ==> Lookup(items', other) == Lookup(items, other)
    requires Synced(env, born, Lookup(olds, plan[n]), Lookup(news, plan[n]), Lookup(before, plan[n]),
            Lookup(items', plan[n]))
    ensures Progress(env, olds, news, before, born, items', plan, n + 1)
  {
    assert plan[..n + 1] == plan[..n] + [plan[n]];
  }

  lemma NotYet(env: Env, olds: Specs, news: Specs, before: Items, born: nat, items: Items, plan: seq<string>, n: nat)
    requires n < |plan| && Distinct(plan) && Progress(env, olds, news, before, born, items, plan, n)
    ensures Lookup(items, plan[n]) == Lookup(before, plan[n])
  {
    assert plan[n] !in plan[..n];
  }

  /** The ids of a plan, group by group, are distinct and complete. */
  lemma PlanIsComplete(order: Order, olds: Specs, news: Specs)
    requires Sorts(order)
    ensures var plan, g, a := Plan(order, olds, news), |Gone(order, olds, news)|, |Added(order, olds, news)|;
            && Distinct(plan) && (forall id :: id in plan <==> id in olds || id in news)
            && (forall k :: 0 <= k < g ==> plan[k] in olds && plan[k] !in news)
            && (forall k :: g <= k < g + a ==> plan[k] in news && plan[k] !in olds)
            && (forall k :: g + a <= k < |plan| ==> plan[k] in news && plan[k] in olds)
  {
    var gone, added, common := Gone(order, olds, news), Added(order, olds, news), Staying(order, olds, news);
    assert Lists(gone, olds.Keys - news.Keys) && Lists(added, news.Keys - olds.Keys)
        && Lists(common, news.Keys * olds.Keys);
    forall k | 0 <= k < |gone|
      ensures gone[k] in olds && gone[k] !in news
    {
      assert gone[k] in gone;
    }
    forall k | 0 <= k < |added|
      ensures added[k] in news && added[k] !in olds
    {
      assert added[k] in added;
    }
    forall k | 0 <= k < |common|
      ensures common[k] in news && common[k] in olds
    {
      assert common[k] in common;
    }
  }

  // ------------------------------------------------------------------- lemmas

  /**
   After a complete update an id is in line if and only if its spec changed or it was in line before. So an
   id that an earlier, failed update left out of line stays so until its spec changes.
   */
  lemma InLineIff(env: Env, born: nat, olds: Specs, news: Specs, before: Items, after: Items, id: string)
    requires AllSynced(env, born, olds, news, before, after)
    ensures InLine(after, news, id) <==> Lookup(olds, id) != Lookup(news, id) || InLine(before, olds, id)
  {
    assert Synced(env, born, Lookup(olds, id), Lookup(news, id), Lookup(before, id), Lookup(after, id));
  }

  /**
   Hot reload: a plugin that stays in the configuration stays the same object if and only if its spec is
   unchanged, or its kind is and the hook takes over the new settings.
   */
  lemma SameObjectIff(env: Env, born: nat, olds: Specs, news: Specs, before: Items, after: Items, id: string)
    requires AllSynced(env, born, olds, news, before, after)
    requires id in olds && id in news && id in before && before[id].serial < born
    ensures id in after
    ensures after[id].serial == before[id].serial <==>
            || olds[id] == news[id]
            || (olds[id].kind == news[id].kind && env.hook.Some? && env.hook.value(before[id], news[id]) == Kept)
    ensures after[id].spec == if olds[id] == news[id] then before[id].spec else news[id]
  {
    assert Synced(env, born, Lookup(olds, id), Lookup(news, id), Lookup(before, id), Lookup(after, id));
  }

  /** A registry in line with the old configuration is in line with the new one afterwards. */
  lemma SyncedMatches(env: Env, born: nat, olds: Specs, news: Specs, before: Items, after: Items)
    requires Matches(before, olds) && AllSynced(env, born, olds, news, before, after)
    ensures Matches(after, news)
  {
    forall id
      ensures InLine(after, news, id)
    {
      assert InLine(before, olds, id);
      InLineIff(env, born, olds, news, before, after, id);
    }
  }

  lemma Completed(env: Env, olds: Specs, news: Specs, before: Items, born: nat, items: Items, plan: seq<string>)
    requires forall id :: id in plan <==> id in olds || id in news
    requires Progress(env, olds, news, before, born, items, plan, |plan|)
    ensures AllSynced(env, born, olds, news, before, items)
  {
    assert plan[..|plan|] == plan;
    forall id
      ensures Synced(env, born, Lookup(olds, id), Lookup(news, id), Lookup(before, id), Lookup(items, id))
    {
      assert id in plan <==> id in olds || id in news;
    }
  }

  /** An update gets through its whole plan exactly when it is feasible. */
  lemma CutIffFeasible(env: Env, olds: Specs, news: Specs, before: Items, plan: seq<string>)
    requires forall id :: id in plan <==> id in olds || id in news
    ensures Cut(env, olds, news, before, plan) == |plan| <==> Feasible(env, olds, news, before)
  {
    if Cut(env, olds, news, before, plan) == |plan| {
      forall id | id in news
        ensures !Blocked(env, olds, news, before, id)
      {
        assert id in plan;
      }
    }
  }

  /** An id that could not be brought in line stays as it was, which is not what the new specs ask for. */
  lemma StuckMismatch(olds: Specs, news: Specs, before: Items, items: Items, id: string)
    requires Matches(before, olds) && id in news && Lookup(items, id) == Lookup(before, id)
    requires id !in olds || olds[id] != news[id]
    ensures !Matches(items, news)
  {
    assert InLine(before, olds, id) && !InLine(items, news, id);
  }

  /** Where an update that started from `before` has to end, complete or not. */
  ghost predicate EndsRightly(order: Order, env: Env, born: nat, olds: Specs, news: Specs, before: Items,
      after: Items) {
    var plan := Plan(order, olds, news);
    Progress(env, olds, news, before, born, after, plan, Cut(env, olds, news, before, plan))
  }

  /**
   A series of updates. Factory and hook may answer differently at every update, and any update may be cut
   short by them: update `k` leads from `configs[k]` to `configs[k + 1]` and from `items[k]` to `items[k + 1]`.
   */
  datatype Series = Series(order: Order, envs: seq<Env>, borns: seq<nat>, configs: seq<Specs>, items: seq<Items>) {
    predicate Shaped() {
      |configs| == |items| == |envs| + 1 == |borns| + 1
    }

    ghost predicate Valid() {
      Shaped() && Sorts(order) && forall k :: 0 <= k < |envs| ==> Happens(k)
    }

    ghost predicate Happens(k: nat)
      requires Shaped() && k < |envs|
    {
      EndsRightly(order, envs[k], borns[k], configs[k], configs[k + 1], items[k], items[k + 1])
    }

    function PlanOf(k: nat): seq<string>
      requires Shaped() && k < |envs|
    {
      Plan(order, configs[k], configs[k + 1])
    }

    function CutOf(k: nat): (n: nat)
      requires Shaped() && k < |envs|
      ensures n <= |PlanOf(k)|
    {
      Cut(envs[k], configs[k], configs[k + 1], items[k], PlanOf(k))
    }

    /** Update `k` gets as far as this id: no earlier id stops it, nor this one. */
    predicate Reaches(k: nat, id: string)
      requires Shaped() && k < |envs|
    {
      id in PlanOf(k)[..CutOf(k)]
    }

    /** The spec of the id is the same in `configs[i]` to `configs[j]`. */
    predicate Steady(i: nat, j: nat, id: string)
      requires i <= j < |configs|
    {
      forall k :: i <= k <= j ==> Lookup(configs[k], id) == Lookup(configs[i], id)
    }
  }

  /** What update `k` does to one id. */
  lemma OneUpdate(s: Series, k: nat, id: string)
    requires s.Valid() && k < |s.envs|
    ensures if s.Reaches(k, id)
            then Synced(s.envs[k], s.borns[k], Lookup(s.configs[k], id), Lookup(s.configs[k + 1], id),
                        Lookup(s.items[k], id), Lookup(s.items[k + 1], id))
            else Lookup(s.items[k + 1], id) == Lookup(s.items[k], id)
  {
    assert s.Happens(k);
  }

  lemma SameSpecSameObject(s: Series, k: nat, id: string)
    requires s.Valid() && k < |s.envs| && Lookup(s.configs[k], id) == Lookup(s.configs[k + 1], id)
    ensures Lookup(s.items[k + 1], id) == Lookup(s.items[k], id)
  {
    OneUpdate(s, k, id);
  }

  /** As long as its spec stays the same, a plugin is the same object, and as much in line as it was. */
  lemma {:induction false} SteadyIsUntouched(s: Series, i: nat, j: nat, id: string)
    requires s.Valid() && i <= j < |s.configs| && s.Steady(i, j, id)
    ensures Lookup(s.items[j], id) == Lookup(s.items[i], id)
    ensures InLine(s.items[j], s.configs[j], id) <==> InLine(s.items[i], s.configs[i], id)
    decreases j
  {
    if i < j {
      SteadyIsUntouched(s, i, j - 1, id);
      assert Lookup(s.configs[j - 1], id) == Lookup(s.configs[i], id) == Lookup(s.configs[j], id);
      SameSpecSameObject(s, j - 1, id);
    }
    assert Lookup(s.items[j], id) == Lookup(s.items[i], id) && Lookup(s.configs[j], id) == Lookup(s.configs[i], id);
  }

  /**
   Over any series of updates, complete or cut short, the last update that changed the spec of an id
   decides: the id is in line now if and only if neither it nor an id before it stopped that update, or what
   was registered before it happened to be what the new spec asks for.
   */
  lemma LastChangeDecides(s: Series, m: nat, j: nat, id: string)
    requires s.Valid() && m < j < |s.configs| && s.Steady(m + 1, j, id)
    requires Lookup(s.configs[m], id) != Lookup(s.configs[m + 1], id)
    ensures InLine(s.items[j], s.configs[j], id) <==> s.Reaches(m, id) || InLine(s.items[m], s.configs[m + 1], id)
  {
    SteadyIsUntouched(s, m + 1, j, id);
    OneUpdate(s, m, id);
    InLineByLookup(s.items[m], s.configs[m + 1], id);
    InLineByLookup(s.items[m + 1], s.configs[m + 1], id);
  }

  lemma InLineByLookup(items: Items, specs: Specs, id: string)
    ensures InLine(items, specs, id) <==>
            if Lookup(specs, id).None? then Lookup(items, id).None?
            else Lookup(items, id).Some? && Lookup(items, id).value.spec == Lookup(specs, id).value
  {
  }

  /** If nothing stops any update, a registry that matches at first matches throughout. */
  lemma {:induction false} UpdatesKeepMatch(s: Series, j: nat)
    requires s.Valid() && j < |s.configs| && Matches(s.items[0], s.configs[0])
    requires forall k :: 0 <= k < j ==> Feasible(s.envs[k], s.configs[k], s.configs[k + 1], s.items[k])
    ensures Matches(s.items[j], s.configs[j])
  {
    if j > 0 {
      UpdatesKeepMatch(s, j - 1);
      assert s.Happens(j - 1) && Feasible(s.envs[j - 1], s.configs[j - 1], s.configs[j - 1 + 1], s.items[j - 1]);
      PlanIsComplete(s.order, s.configs[j - 1], s.configs[j]);
      CutIffFeasible(s.envs[j - 1], s.configs[j - 1], s.configs[j], s.items[j - 1], s.PlanOf(j - 1));
      Completed(s.envs[j - 1], s.configs[j - 1], s.configs[j], s.items[j - 1], s.borns[j - 1], s.items[j],
          s.PlanOf(j - 1));
      SyncedMatches(s.envs[j - 1], s.borns[j - 1], s.configs[j - 1], s.configs[j], s.items[j - 1], s.items[j]);
    }
  }

  /**
   A failure is not mended: when the factory raises for the first plugin of an empty registry, the same
   configuration succeeds the next time without the plugin ever being registered.
   */
  lemma FailureIsNotMended(p: PluginSpec, failing: Env, later: Env, born: nat, after: Items)
    requires !failing.builds(p)
    ensures var news := SpecMap([p]);
            && !Feasible(failing, map[], news, map[])
            && Feasible(later, news, news, map[])
            && (AllSynced(later, born, news, news, map[], after) ==> p.id !in after)
  {
    var news := SpecMap([p]);
    assert [p][..|[p]| - 1] == [] && SpecMap([]) == map[];
    assert news == SpecMap([])[p.id := p];
    assert !Buildable(failing, map[], news, map[], p.id);
    if AllSynced(later, born, news, news, map[], after) {
      InLineIff(later, born, news, news, map[], after, p.id);
    }
  }

  // ------------------------------------------------------------------ objects

  /** The plugin registry and the factory's supply of fresh objects. */
  class Registry {
    var items: Items
    var nextSerial: nat

    constructor ()
      ensures items == map[] && nextSerial == 0
    {
      items, nextSerial := map[], 0;
    }

    /** False stands for the conflict error. */
    method Register(inst: Instance) returns (ok: bool)
      modifies this
      ensures ok <==> inst.spec.id !in old(items)
      ensures items == if ok then old(items)[inst.spec.id := inst] else old(items)
      ensures nextSerial == old(nextSerial)
    {
      if inst.spec.id in items {
        return false;
      }
      items := items[inst.spec.id := inst];
      return true;
    }

    method Unregister(id: string)
      modifies this
      ensures items == old(items) - {id} && nextSerial == old(nextSerial)
    {
      items := items - {id};
    }

    method Replace(id: string, inst: Instance)
      modifies this
      ensures items == old(items)[id := inst] && nextSerial == old(nextSerial)
    {
      items := items[id := inst];
    }

    /** The factory; nothing when it raises. */
    method Build(env: Env, spec: PluginSpec) returns (inst: Option<Instance>)
      modifies this
      ensures items == old(items) && nextSerial == old(nextSerial) + 1
      ensures inst == if env.builds(spec) then Some(Instance(old(nextSerial), spec)) else None
    {
      inst := if env.builds(spec) then Some(Instance(nextSerial, spec)) else None;
      nextSerial := nextSerial + 1;
    }

    /** The instance takes over new settings in place. */
    method Absorb(id: string, spec: PluginSpec)
      requires id in items
      modifies this
      ensures items == old(items)[id := old(items)[id].(spec := spec)] && nextSerial == old(nextSerial)
    {
      items := items[id := items[id].(spec := spec)];
    }
  }

  class RegistrySubscriber {
    const registry: Registry
    const env: Env
    const order: Order

    constructor (registry: Registry, env: Env, order: Order)
      ensures this.registry == registry && this.env == env && this.order == order
    {
      this.registry := registry;
      this.env := env;
      this.order := order;
    }

    method RemoveOne(id: string)
      modifies registry
      ensures registry.nextSerial == old(registry.nextSerial)
      ensures Lookup(registry.items, id) == None
      ensures forall other :: other != id ==> Lookup(registry.items, other) == Lookup(old(registry.items), other)
    {
      registry.Unregister(id);
    }

    /** Remove the ids that are gone, the first `to` of the plan. */
    method RemoveGone(plan: seq<string>, to: nat, olds: Specs, news: Specs, ghost before: Items, ghost born: nat)
      requires to <= |plan| && forall k :: 0 <= k < to ==> plan[k] in olds && plan[k] !in news
      requires registry.items == before && registry.nextSerial == born
      modifies registry
      ensures registry.nextSerial == born && Progress(env, olds, news, before, born, registry.items, plan, to)
    {
      for k := 0 to to
        invariant registry.nextSerial == born && Progress(env, olds, news, before, born, registry.items, plan, k)
      {
        ghost var items := registry.items;
        RemoveOne(plan[k]);
        OneMore(env, olds, news, before, born, items, registry.items, plan, k);
      }
    }

    method RegisterOne(spec: PluginSpec) returns (ok: bool)
      modifies registry
      ensures old(registry.nextSerial) <= registry.nextSerial
      ensures forall other :: other != spec.id ==> Lookup(registry.items, other) == Lookup(old(registry.items), other)
      ensures ok <==> env.builds(spec) && Lookup(old(registry.items), spec.id) == None
      ensures ok ==> Lookup(registry.items, spec.id) == Some(Instance(old(registry.nextSerial), spec))
      ensures !ok ==> registry.items == old(registry.items)
    {
      var inst := registry.Build(env, spec);
      if inst.None? {
        return false;
      }
      ok := registry.Register(inst.value);
    }

    /** Register the ids that are new, those at `from` to `to - 1`; false when factory or registry raises at `n`. */
    method RegisterAdded(plan: seq<string>, from: nat, to: nat, olds: Specs, news: Specs, ghost before: Items,
                         ghost born: nat)
      returns (ok: bool, ghost n: nat)
      requires Distinct(plan) && from <= to <= |plan|
      requires forall k :: from <= k < to ==> plan[k] in news && news[plan[k]].id == plan[k] && plan[k] !in olds
      requires born <= registry.nextSerial && Progress(env, olds, news, before, born, registry.items, plan, from)
      modifies registry
      ensures born <= registry.nextSerial && from <= n <= to && (ok <==> n == to)
      ensures Progress(env, olds, news, before, born, registry.items, plan, n)
      ensures forall k :: from <= k < n ==> !Blocked(env, olds, news, before, plan[k])
      ensures !ok ==> Blocked(env, olds, news, before, plan[n])
    {
      for k := from to to
        invariant born <= registry.nextSerial && Progress(env, olds, news, before, born, registry.items, plan, k)
        invariant forall i :: from <= i < k ==> !Blocked(env, olds, news, before, plan[i])
      {
        ghost var items := registry.items;
        NotYet(env, olds, news, before, born, items, plan, k);
        ok := RegisterOne(news[plan[k]]);
        if !ok {
          return false, k;
        }
        OneMore(env, olds, news, before, born, items, registry.items, plan, k);
      }
      return true, to;
    }

    /** Keep, reload or replace one id that stays; false when the factory raises. */
    method UpdateOne(id: string, prev: PluginSpec, next: PluginSpec, ghost born: nat) returns (ok: bool)
      requires born <= registry.nextSerial
      modifies registry
      ensures born <= registry.nextSerial
      ensures forall other :: other != id ==> Lookup(registry.items, other) == Lookup(old(registry.items), other)
      ensures ok <==> (NeedsBuild(env, Lookup(old(registry.items), id), Some(prev), Some(next)) ==> env.builds(next))
      ensures !ok ==> registry.items == old(registry.items) && prev != next
      ensures ok ==> Synced(env, born, Some(prev), Some(next), Lookup(old(registry.items), id),
              Lookup(registry.items, id))
    {
      if prev == next {
        return true;
      }
      if prev.kind == next.kind && env.hook.Some? && id in registry.items {
        // A hook that raises counts as one that declines.
        if env.hook.value(registry.items[id], next) == Kept {
          registry.Absorb(id, next);
          return true;
        }
      }
      var inst := registry.Build(env, next);
      if inst.None? {
        return false;
      }
      registry.Replace(id, inst.value);
      return true;
    }

    /** Go through the ids that stay, those from `from` on; false when the factory raises, at `n`. */
    method UpdateCommon(plan: seq<string>, from: nat, olds: Specs, news: Specs, ghost before: Items, ghost born: nat)
      returns (ok: bool, ghost n: nat)
      requires Distinct(plan) && from <= |plan|
      requires forall k :: from <= k < |plan| ==> plan[k] in news && plan[k] in olds
      requires born <= registry.nextSerial && Progress(env, olds, news, before, born, registry.items, plan, from)
      modifies registry
      ensures from <= n <= |plan| && (ok <==> n == |plan|)
      ensures Progress(env, olds, news, before, born, registry.items, plan, n)
      ensures forall k :: from <= k < n ==> !Blocked(env, olds, news, before, plan[k])
      ensures !ok ==> Blocked(env, olds, news, before, plan[n]) && olds[plan[n]] != news[plan[n]]
    {
      for k := from to |plan|
        invariant born <= registry.nextSerial && Progress(env, olds, news, before, born, registry.items, plan, k)
        invariant forall i :: from <= i < k ==> !Blocked(env, olds, news, before, plan[i])
      {
        ghost var items := registry.items;
        NotYet(env, olds, news, before, born, items, plan, k);
        ok := UpdateOne(plan[k], olds[plan[k]], news[plan[k]], born);
        if !ok {
          return false, k;
        }
        OneMore(env, olds, news, before, born, items, registry.items, plan, k);
      }
      return true, |plan|;
    }

    /**
     The reconciliation. False stands for an exception that cut it short. The ids before the first one that
     stops it are in line afterwards, the others are as they were. From a registry in line with the old
     configuration, the result is in line with the new one if and only if nothing stops it.
     */
    method OnConfigChanged(prev: Option<seq<PluginSpec>>, next: seq<PluginSpec>) returns (ok: bool)
      requires Sorts(order)
      modifies registry
      ensures var olds, news := OldSpecs(prev), SpecMap(next);
              && (ok <==> Feasible(env, olds, news, old(registry.items)))
              && EndsRightly(order, env, old(registry.nextSerial), olds, news, old(registry.items), registry.items)
              && (ok ==> AllSynced(env, old(registry.nextSerial), olds, news, old(registry.items), registry.items))
              && (Matches(old(registry.items), olds) ==> (ok <==> Matches(registry.items, news)))
    {
      var olds, news := OldSpecs(prev), SpecMap(next);
      ghost var before, born := registry.items, registry.nextSerial;
      var plan := Plan(order, olds, news);
      var gone, added := |Gone(order, olds, news)|, |Added(order, olds, news)|;
      PlanIsComplete(order, olds, news);
      RemoveGone(plan, gone, olds, news, before, born);
      ghost var n;
      ok, n := RegisterAdded(plan, gone, gone + added, olds, news, before, born);
      if ok {
        ok, n := UpdateCommon(plan, gone + added, olds, news, before, born);
      }
      CutIs(env, olds, news, before, plan, n);
      CutIffFeasible(env, olds, news, before, plan);
      if ok {
        Completed(env, olds, news, before, born, registry.items, plan);
        if Matches(before, olds) {
          SyncedMatches(env, born, olds, news, before, registry.items);
        }
      } else {
        NotYet(env, olds, news, before, born, registry.items, plan, n);
        if Matches(before, olds) {
          StuckMismatch(olds, news, before, registry.items, plan[n]);
        }
      }
    }
  }

  /** The holder of the current configuration; updates run one at a time under its lock. */
  class ConfigHolder {
    var current: Option<seq<PluginSpec>>
    const subscriber: RegistrySubscriber

    constructor (initial: Option<seq<PluginSpec>>, subscriber: RegistrySubscriber)
      ensures current == initial && this.subscriber == subscriber
    {
      current := initial;
      this.subscriber := subscriber;
    }

    /** The swap comes first and stays even when a subscriber raises. */
    method Update(next: seq<PluginSpec>) returns (ok: bool)
      requires Sorts(subscriber.order)
      modifies this`current, subscriber.registry
      ensures current == Some(next)
      ensures var registry, env := subscriber.registry, subscriber.env;
              var olds, news := OldSpecs(old(current)), SpecMap(next);
              && (ok <==> Feasible(env, olds, news, old(registry.items)))
              && EndsRightly(subscriber.order, env, old(registry.nextSerial), olds, news, old(registry.items),
                  registry.items)
              && (ok ==> AllSynced(env, old(registry.nextSerial), olds, news, old(registry.items), registry.items))
              && (Matches(old(registry.items), olds) ==> (ok <==> Matches(registry.items, news)))
    {
      var prev := current;
      current := Some(next);
      ok := subscriber.OnConfigChanged(prev, next);
    }
  }
}
