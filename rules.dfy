/**
 * Auto-pickup rules, the verdict a rule gives an item name, and the record sequence a rule
 * list is persisted as.
 */
module Rules {
  import opened Matching

  /** `rule_state`: the classification of an item name. `NoRule` is `rule_state::NONE`. */
  datatype RuleState = Whitelisted | Blacklisted | NoRule

  /** One user-authored rule: `sRule`, `bActive`, `bExclude`. */
  datatype Rule = Rule(pattern: string, active: bool, exclude: bool)

  /** The state a matching rule writes into the cache. */
  function StateOf(r: Rule): (s: RuleState)
    ensures s != NoRule
    ensures s == Blacklisted <==> r.exclude
  {
    if r.exclude then Blacklisted else Whitelisted
  }

  /** The persisted form of one rule: the object `{ "rule", "active", "exclude" }`. */
  datatype RuleRecord = RuleRecord(rule: string, active: bool, exclude: bool)

  /** `rule::serialize`, applied to every rule of the list in order (`rule_list::serialize`). */
  function Serialize(rules: seq<Rule>): (records: seq<RuleRecord>)
    ensures |records| == |rules|
    ensures forall i :: 0 <= i < |rules| ==>
      records[i].rule == rules[i].pattern && records[i].active == rules[i].active &&
      records[i].exclude == rules[i].exclude
  {
    if rules == [] then []
    else Serialize(rules[..|rules| - 1]) + [ToRecord(rules[|rules| - 1])]
  }

  function ToRecord(r: Rule): RuleRecord
  {
    RuleRecord(r.pattern, r.active, r.exclude)
  }

  /** `rule_list::deserialize`: the list is cleared and one rule is appended per record, in
    * order. The result serializes back to exactly the records it was read from. */
  method Deserialize(records: seq<RuleRecord>) returns (rules: seq<Rule>)
    ensures Serialize(rules) == records
  {
    rules := [];
    var i := 0;
    while i < |records|
      invariant 0 <= i <= |records|
      invariant |rules| == i
      invariant Serialize(rules) == records[..i]
    {
      var r := Rule(records[i].rule, records[i].active, records[i].exclude);
      assert (rules + [r])[..i] == rules;
      rules := rules + [r];
      i := i + 1;
    }
    assert records[..i] == records;
  }

  /** Two lists with the same records are the same list; with `Deserialize`, a save and
    * a load reproduce the rule list exactly. */
  lemma {:induction false} SerializeInjective(a: seq<Rule>, b: seq<Rule>)
    requires Serialize(a) == Serialize(b)
    ensures a == b
  {
    assert |a| == |b|;
    forall i | 0 <= i < |a| ensures a[i] == b[i] {
      assert Serialize(a)[i] == Serialize(b)[i];
    }
  }

  /** The name test of `has_rule` and `remove_rule`: same length and a case-insensitive
    * substring match, which is case-insensitive equality. */
  predicate SameNameRule(name: string, r: Rule)
  {
    |name| == |r.pattern| && CiContains(name, r.pattern)
  }

  lemma SameNameRuleIsCaseInsensitiveEquality(name: string, r: Rule)
    ensures SameNameRule(name, r) <==> Lower(name) == Lower(r.pattern)
  {
    if |name| == |r.pattern| {
      EqualLengthContains(name, r.pattern);
    }
  }

  /** Index of the first rule whose pattern equals `name` ignoring case, or `|rules|`. */
  function FirstSameName(rules: seq<Rule>, name: string): (i: nat)
    ensures i <= |rules|
    ensures i < |rules| ==> SameNameRule(name, rules[i])
    ensures forall k :: 0 <= k < i ==> !SameNameRule(name, rules[k])
  {
    if rules == [] then 0
    else if SameNameRule(name, rules[0]) then 0
    else 1 + FirstSameName(rules[1..], name)
  }

  /** The list with the element at `i` erased (`vector::erase`). */
  function EraseAt<T>(s: seq<T>, i: nat): (r: seq<T>)
    requires i < |s|
    ensures |r| == |s| - 1
    ensures forall k :: 0 <= k < i ==> r[k] == s[k]
    ensures forall k :: i <= k < |r| ==> r[k] == s[k + 1]
    ensures multiset(r) + multiset{s[i]} == multiset(s)
  {
    assert s == s[..i] + [s[i]] + s[i + 1..];
    s[..i] + s[i + 1..]
  }
}
