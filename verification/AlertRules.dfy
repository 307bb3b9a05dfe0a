/** Registration of alert rules, one by one and in groups. */
module AlertRules {
  import opened Options

  /** `valid` is the verdict of the rule's own validation. */
  datatype AlertRule = AlertRule(name: string, valid: bool)

  datatype RuleResult = Added | NullArgument | InvalidRule | AlreadyExists

  class RuleBook {
    var rules: map<string, AlertRule>
    var groups: seq<seq<AlertRule>>

    constructor ()
      ensures rules == map[] && groups == []
    {
      rules, groups := map[], [];
    }

    method AddRule(given: Option<AlertRule>) returns (r: RuleResult)
      modifies this`rules
      ensures r == match given
                   case None => NullArgument
                   case Some(rule) =>
                     if !rule.valid then InvalidRule else if rule.name in old(rules) then AlreadyExists else Added
      ensures rules == if r.Added? then old(rules)[given.value.name := given.value] else old(rules)
    {
      if given.None? {
        return NullArgument;
      }
      var rule := given.value;
      if !rule.valid {
        return InvalidRule;
      }
      if rule.name in rules {
        return AlreadyExists;
      }
      rules := rules[rule.name := rule];
      return Added;
    }

    /** All or nothing against the stored names; the rules themselves are not validated. */
    method AddRuleGroup(given: Option<seq<AlertRule>>) returns (r: RuleResult)
      modifies this`rules, this`groups
      ensures r == match given
                   case None => NullArgument
                   case Some(group) => if Clashes(old(rules), group) then AlreadyExists else Added
      ensures r.Added? ==> rules == Merge(old(rules), given.value) && groups == old(groups) + [given.value]
      ensures !r.Added? ==> rules == old(rules) && groups == old(groups)
    {
      if given.None? {
        return NullArgument;
      }
      var group := given.value;
      for i := 0 to |group|
        invariant !Clashes(rules, group[..i]) && rules == old(rules) && groups == old(groups)
      {
        if group[i].name in rules {
          return AlreadyExists;
        }
      }
      assert group[..|group|] == group;
      for i := 0 to |group|
        invariant rules == Merge(old(rules), group[..i]) && groups == old(groups)
      {
        rules := rules[group[i].name := group[i]];
        assert group[..i + 1][..i] == group[..i];
      }
      groups := groups + [group];
      return Added;
    }
  }

  predicate Clashes(rules: map<string, AlertRule>, group: seq<AlertRule>) {
    exists i :: 0 <= i < |group| && group[i].name in rules
  }

  function Merge(rules: map<string, AlertRule>, group: seq<AlertRule>): map<string, AlertRule> {
    if group == [] then rules
    else Merge(rules, group[..|group| - 1])[group[|group| - 1].name := group[|group| - 1]]
  }

  ghost predicate DistinctNames(group: seq<AlertRule>) {
    forall i, j :: 0 <= i < j < |group| ==> group[i].name != group[j].name
  }

  function NamesOf(group: seq<AlertRule>): set<string> {
    set r | r in group :: r.name
  }

  lemma {:induction false} MergeKeys(rules: map<string, AlertRule>, group: seq<AlertRule>)
    ensures Merge(rules, group).Keys == rules.Keys + NamesOf(group)
  {
    if group == [] {
    } else {
      var n := |group| - 1;
      MergeKeys(rules, group[..n]);
      assert group == group[..n] + [group[n]];
    }
  }

  lemma PutSize(m: map<string, AlertRule>, k: string, v: AlertRule)
    ensures |m[k := v]| == |m| + if k in m then 0 else 1
  {
    assert m[k := v].Keys == m.Keys + {k};
  }

  lemma DistinctStep(group: seq<AlertRule>, n: nat)
    requires |group| == n + 1
    ensures DistinctNames(group) <==> DistinctNames(group[..n]) && group[n].name !in NamesOf(group[..n])
  {
    if group[n].name in NamesOf(group[..n]) {
      var r :| r in group[..n] && r.name == group[n].name;
    }
  }

  lemma MergeStep(rules: map<string, AlertRule>, group: seq<AlertRule>)
    requires group != [] && !Clashes(rules, group)
    ensures var n := |group| - 1;
      && !Clashes(rules, group[..n])
      && |Merge(rules, group)| == |Merge(rules, group[..n])| + if group[n].name in NamesOf(group[..n]) then 0 else 1
  {
    var n := |group| - 1;
    MergeKeys(rules, group[..n]);
    PutSize(Merge(rules, group[..n]), group[n].name, group[n]);
    assert group[n].name !in rules;
  }

  lemma {:induction false} MergeSize(rules: map<string, AlertRule>, group: seq<AlertRule>)
    requires !Clashes(rules, group)
    ensures |Merge(rules, group)| <= |rules| + |group|
    ensures |Merge(rules, group)| == |rules| + |group| <==> DistinctNames(group)
  {
    if group == [] {
    } else {
      var n := |group| - 1;
      MergeStep(rules, group);
      MergeSize(rules, group[..n]);
      DistinctStep(group, n);
    }
  }

  /** No later rule of the group has the name of rule i. */
  ghost predicate LastOfName(group: seq<AlertRule>, i: nat)
    requires i < |group|
  {
    forall j :: i < j < |group| ==> group[j].name != group[i].name
  }

  lemma {:induction false} MergeTakesLast(rules: map<string, AlertRule>, group: seq<AlertRule>, i: nat)
    requires i < |group| && LastOfName(group, i)
    ensures group[i].name in Merge(rules, group) && Merge(rules, group)[group[i].name] == group[i]
  {
    var n := |group| - 1;
    if i == n {
    } else {
      assert LastOfName(group[..n], i);
      MergeTakesLast(rules, group[..n], i);
    }
  }

  /**
    A group that is accepted keeps every stored rule, and adds as many entries as it has rules exactly when
    its names are distinct: of two rules with one name the later replaces the earlier, without an error.
   */
  lemma GroupStoredIffDistinct(rules: map<string, AlertRule>, group: seq<AlertRule>)
    requires !Clashes(rules, group)
    ensures forall k :: k in rules ==> k in Merge(rules, group) && Merge(rules, group)[k] == rules[k]
    ensures |Merge(rules, group)| == |rules| + |group| <==> DistinctNames(group)
    ensures forall i :: 0 <= i < |group| && LastOfName(group, i) ==>
              group[i].name in Merge(rules, group) && Merge(rules, group)[group[i].name] == group[i]
  {
    MergeSize(rules, group);
    forall i | 0 <= i < |group| && LastOfName(group, i)
      ensures group[i].name in Merge(rules, group) && Merge(rules, group)[group[i].name] == group[i]
    {
      MergeTakesLast(rules, group, i);
    }
    forall k | k in rules ensures k in Merge(rules, group) && Merge(rules, group)[k] == rules[k] {
      MergeKeeps(rules, group, k);
    }
  }

  lemma {:induction false} MergeKeeps(rules: map<string, AlertRule>, group: seq<AlertRule>, k: string)
    requires !Clashes(rules, group) && k in rules
    ensures k in Merge(rules, group) && Merge(rules, group)[k] == rules[k]
  {
    if group == [] {
    } else {
      assert group[|group| - 1].name != k;
      MergeKeeps(rules, group[..|group| - 1], k);
    }
  }
}
