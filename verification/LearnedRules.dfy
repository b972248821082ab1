/** The in-memory store of learned rules. Rows keep their place when they are disabled or revalidated. */
module LearnedRules {
  import opened Common
  import opened Whois

  datatype LearnedRule = LearnedRule(
    id: nat,
    rule: ParseRule,
    disabled: bool,
    suggesterId: string,
    pipelineVersion: int,
    sample: string,            // the text the rule was learned from, which the source keeps as a hash
    sampleDomain: string,
    lastRevalidatedAt: Option<Instant>,
    revalidations: nat
  )

  /** The dictionary's values in insertion order; ids count up from one. */
  type Rows = seq<LearnedRule>

  predicate Numbered(rows: Rows) {
    forall k :: 0 <= k < |rows| ==> rows[k].id == k + 1
  }

  predicate StillEnabled(rows: Rows, k: nat) { k < |rows| && !rows[k].disabled }

  predicate Clashes(row: LearnedRule, rule: ParseRule) {
    !row.disabled && row.rule.tld == rule.tld && row.rule.regex == rule.regex
  }

  predicate Duplicate(rows: Rows, rule: ParseRule) {
    exists k :: 0 <= k < |rows| && Clashes(rows[k], rule)
  }

  /** Enabled rows of one TLD and pattern are unique. */
  ghost predicate Unique(rows: Rows) {
    forall j, k :: 0 <= j < k < |rows| && !rows[j].disabled ==> !Clashes(rows[k], rows[j].rule)
  }

  function NewRow(rows: Rows, rule: ParseRule, sample: string, sampleDomain: string, suggesterId: string,
                  pipelineVersion: int): LearnedRule
  {
    LearnedRule(|rows| + 1, rule, false, suggesterId, pipelineVersion, sample, sampleDomain, None, 0)
  }

  /** The enabled rules of a TLD, oldest first. */
  function ForTld(rows: Rows, tld: string): seq<ParseRule> {
    if rows == [] then []
    else
      var last := rows[|rows| - 1];
      ForTld(rows[..|rows| - 1], tld) + if last.rule.tld == tld && !last.disabled then [last.rule] else []
  }

  function Enabled(rows: Rows): Rows {
    if rows == [] then []
    else
      var last := rows[|rows| - 1];
      Enabled(rows[..|rows| - 1]) + if last.disabled then [] else [last]
  }

  function DisabledAt(rows: Rows, id: nat): Rows
    requires 1 <= id <= |rows|
  {
    rows[id - 1 := rows[id - 1].(disabled := true)]
  }

  function RevalidatedAt(rows: Rows, id: nat, at: Instant): Rows
    requires 1 <= id <= |rows|
  {
    var row := rows[id - 1];
    rows[id - 1 := row.(lastRevalidatedAt := Some(at), revalidations := row.revalidations + 1)]
  }

  // ------------------------------------------------------------------- lemmas

  lemma {:induction false} ForTldFrom(rows: Rows, tld: string, k: nat)
    requires k <= |rows|
    ensures ForTld(rows, tld) == ForTld(rows[..k], tld) + ForTld(rows[k..], tld)
  {
    if k == |rows| {
      assert rows[..k] == rows;
    } else {
      var before := rows[..|rows| - 1];
      ForTldFrom(before, tld, k);
      assert before[..k] == rows[..k] && rows[k..][..|rows[k..]| - 1] == before[k..];
    }
  }

  /** What a TLD is offered, around one enabled row of it. */
  lemma ForTldAround(rows: Rows, tld: string, n: nat)
    requires n < |rows| && !rows[n].disabled && rows[n].rule.tld == tld
    ensures ForTld(rows, tld) == ForTld(rows[..n], tld) + [rows[n].rule] + ForTld(rows[n + 1..], tld)
  {
    ForTldFrom(rows, tld, n);
    ForTldFrom(rows[n..], tld, 1);
    assert rows[n..][..1] == [rows[n]] && rows[n..][1..] == rows[n + 1..];
    assert [rows[n]][..0] == [];
  }

  lemma {:induction false} ForTldIff(rows: Rows, tld: string, rule: ParseRule)
    ensures rule in ForTld(rows, tld) <==>
            exists k :: 0 <= k < |rows| && !rows[k].disabled && rows[k].rule == rule && rule.tld == tld
  {
    if rows != [] {
      var before := rows[..|rows| - 1];
      ForTldIff(before, tld, rule);
      if rule in ForTld(before, tld) {
        var k :| 0 <= k < |before| && !before[k].disabled && before[k].rule == rule && rule.tld == tld;
        assert rows[k] == before[k];
      }
      if k :| 0 <= k < |rows| && !rows[k].disabled && rows[k].rule == rule && rule.tld == tld {
        assert k < |before| ==> before[k] == rows[k];
      }
    }
  }

  lemma {:induction false} EnabledIff(rows: Rows, row: LearnedRule)
    ensures row in Enabled(rows) <==> row in rows && !row.disabled
  {
    if rows != [] {
      EnabledIff(rows[..|rows| - 1], row);
      assert row in rows <==> row in rows[..|rows| - 1] || row == rows[|rows| - 1];
    }
  }

  /** The rules of some rows, in their order. */
  function RulesOf(rows: Rows): seq<ParseRule> {
    seq(|rows|, i requires 0 <= i < |rows| => rows[i].rule)
  }

  lemma RuleMore(en: Engine, raw: string, tld: string, rules: seq<ParseRule>, rule: ParseRule)
    ensures Parse(en, raw, tld, rules + [rule]) == Both(Parse(en, raw, tld, rules), Parse(en, raw, tld, [rule]))
    ensures rule.tld != tld ==> Parse(en, raw, tld, rules + [rule]) == Parse(en, raw, tld, rules)
  {
    ParseAppend(en, raw, tld, rules, [rule]);
    assert [rule][1..] == [];
  }

  /** A TLD is offered its rules in the order of the enabled rows: no other list of them would parse alike. */
  lemma {:induction false} OfferedParsesAlike(en: Engine, raw: string, tld: string, rows: Rows)
    ensures Parse(en, raw, tld, ForTld(rows, tld)) == Parse(en, raw, tld, RulesOf(Enabled(rows)))
  {
    if rows != [] {
      var before, last := rows[..|rows| - 1], rows[|rows| - 1];
      OfferedParsesAlike(en, raw, tld, before);
      if last.disabled {
        assert ForTld(before, tld) + [] == ForTld(before, tld) && Enabled(before) + [] == Enabled(before);
      } else {
        RuleMore(en, raw, tld, ForTld(before, tld), last.rule);
        RuleMore(en, raw, tld, RulesOf(Enabled(before)), last.rule);
        assert RulesOf(Enabled(rows)) == RulesOf(Enabled(before)) + [last.rule];
        assert last.rule.tld != tld ==> ForTld(rows, tld) == ForTld(before, tld);
      }
    }
  }

  // ------------------------------------------------------------------ objects

  class MemoryLearnedRulesRepo {
    var rows: Rows
    var nextId: nat

    constructor ()
      ensures Valid() && rows == []
    {
      rows, nextId := [], 1;
    }

    ghost predicate Valid()
      reads this
    {
      Numbered(rows) && nextId == |rows| + 1
    }

    method RulesForTld(tld: string) returns (rules: seq<ParseRule>)
      requires Valid()
      ensures rules == ForTld(rows, tld)
    {
      rules := [];
      for k := 0 to |rows|
        invariant rules == ForTld(rows[..k], tld)
      {
        assert rows[..k + 1][..k] == rows[..k];
        if rows[k].rule.tld == tld && !rows[k].disabled {
          rules := rules + [rows[k].rule];
        }
      }
      assert rows[..|rows|] == rows;
    }

    method ListEnabled() returns (enabled: Rows)
      requires Valid()
      ensures enabled == Enabled(rows)
    {
      enabled := [];
      for k := 0 to |rows|
        invariant enabled == Enabled(rows[..k])
      {
        assert rows[..k + 1][..k] == rows[..k];
        if !rows[k].disabled {
          enabled := enabled + [rows[k]];
        }
      }
      assert rows[..|rows|] == rows;
    }

    /** The new id; nothing when an enabled row has the same TLD and pattern, which raises. */
    method Add(rule: ParseRule, sample: string, sampleDomain: string, suggesterId: string, pipelineVersion: int)
      returns (id: Option<nat>)
      requires Valid()
      modifies this
      ensures Valid()
      ensures id.None? <==> Duplicate(old(rows), rule)
      ensures id.None? ==> rows == old(rows)
      ensures id.Some? ==> id.value == |old(rows)| + 1
      ensures id.Some? ==>
                rows == old(rows) + [NewRow(old(rows), rule, sample, sampleDomain, suggesterId, pipelineVersion)]
      ensures id.Some? ==>
                var row := rows[|old(rows)|];
                && row.id == id.value && row.rule == rule && !row.disabled && row.revalidations == 0
                && row.sample == sample && row.sampleDomain == sampleDomain && row.lastRevalidatedAt == None
                && row.suggesterId == suggesterId && row.pipelineVersion == pipelineVersion
    {
      for k := 0 to |rows|
        invariant forall j :: 0 <= j < k ==> !Clashes(rows[j], rule)
      {
        if rows[k].rule.tld == rule.tld && rows[k].rule.regex == rule.regex && !rows[k].disabled {
          return None;
        }
      }
      id := Some(nextId);
      rows := rows + [LearnedRule(nextId, rule, false, suggesterId, pipelineVersion, sample, sampleDomain, None, 0)];
      nextId := nextId + 1;
    }

    /** False for an unknown id, which raises. */
    method Disable(id: nat) returns (ok: bool)
      requires Valid()
      modifies this
      ensures Valid()
      ensures ok <==> 1 <= id <= |old(rows)|
      ensures rows == if ok then DisabledAt(old(rows), id) else old(rows)
    {
      if id < 1 || id >= nextId {
        return false;
      }
      rows := rows[id - 1 := rows[id - 1].(disabled := true)];
      return true;
    }

    method MarkRevalidated(id: nat, at: Instant) returns (ok: bool)
      requires Valid()
      modifies this
      ensures Valid()
      ensures ok <==> 1 <= id <= |old(rows)|
      ensures rows == if ok then RevalidatedAt(old(rows), id, at) else old(rows)
    {
      if id < 1 || id >= nextId {
        return false;
      }
      var row := rows[id - 1];
      rows := rows[id - 1 := row.(lastRevalidatedAt := Some(at), revalidations := row.revalidations + 1)];
      return true;
    }
  }
}
