/**
 * The classification cache of a settings scope: a map from item name to `RuleState`, the
 * side table of representative catalog entries used while it is rebuilt, and the `ready`
 * flag. The functions in the first half say what applying rules does to the cache; the
 * class `Cache` performs it step by step and is proved to agree with them.
 */
module Classification {
  import opened Matching
  import opened Rules
  import opened Items

  /** What the cache holds: `map_items` and `temp_items`. */
  datatype Table = Table(items: map<string, RuleState>, temps: map<string, ItemType>)

  /** Every name in the map has a representative: the exclude pass reads
    * `temp_items[name]` for every key. */
  predicate WellFormed(t: Table)
  {
    t.items.Keys <= t.temps.Keys
  }

  /** Every representative is a catalog entry filed under its own name. */
  predicate FromCatalog(t: Table, catalog: seq<ItemType>)
  {
    forall k :: k in t.temps ==> t.temps[k] in catalog && t.temps[k].name == k
  }

  /** Whether an item of the catalog satisfies a rule pattern. */
  predicate TypeMatches(e: ItemType, pattern: string)
  {
    RuleMatches(e.materials, e.name, pattern)
  }

  /** An include rule: every catalog entry that matches is whitelisted under its name and
    * becomes that name's representative. */
  function IncludePass(t: Table, pattern: string, catalog: seq<ItemType>): (r: Table)
    ensures WellFormed(t) ==> WellFormed(r)
  {
    if catalog == [] then t
    else
      var n := |catalog| - 1;
      var e := catalog[n];
      var t' := IncludePass(t, pattern, catalog[..n]);
      if TypeMatches(e, pattern) then Table(t'.items[e.name := Whitelisted], t'.temps[e.name := e])
      else t'
  }

  /** What an include pass writes: every matching catalog name becomes whitelisted, with a
    * matching catalog entry of that name as representative; nothing else changes. */
  lemma {:induction false} IncludePassSpec(t: Table, pattern: string, catalog: seq<ItemType>)
    ensures var r := IncludePass(t, pattern, catalog);
      && t.items.Keys <= r.items.Keys
      && (forall e :: e in catalog && TypeMatches(e, pattern) ==>
            e.name in r.items && r.items[e.name] == Whitelisted)
      && (forall k :: k in r.items ==>
            (k in t.items && r.items[k] == t.items[k]) ||
            (r.items[k] == Whitelisted && exists e :: e in catalog && e.name == k && TypeMatches(e, pattern)))
      && (forall k :: k in r.temps ==>
            (k in t.temps && r.temps[k] == t.temps[k]) || (r.temps[k] in catalog && r.temps[k].name == k))
  {
    if catalog != [] {
      var n := |catalog| - 1;
      assert catalog == catalog[..n] + [catalog[n]];
      IncludePassSpec(t, pattern, catalog[..n]);
    }
  }

  /** An exclude rule: only names already in the map are revisited; each is blacklisted
    * when its representative's materials or the name itself match. */
  function ExcludePass(t: Table, pattern: string): (r: map<string, RuleState>)
    requires WellFormed(t)
    ensures r.Keys == t.items.Keys
  {
    map k | k in t.items :: if ExcludeHits(t, k, pattern) then Blacklisted else t.items[k]
  }

  /** The test of the exclude pass for one name: its representative's materials, or the
    * name itself. */
  predicate ExcludeHits(t: Table, k: string, pattern: string)
    requires k in t.temps
  {
    SpecialRule(t.temps[k].materials, pattern) || WildcardMatch(k, pattern)
  }

  /** One rule of `rule_list::refresh_map_items`: empty and inactive rules are skipped. */
  function ApplyRule(t: Table, rule: Rule, catalog: seq<ItemType>): (r: Table)
    requires WellFormed(t)
    ensures WellFormed(r)
  {
    if rule.pattern == [] || !rule.active then t
    else if !rule.exclude then IncludePass(t, rule.pattern, catalog)
    else Table(ExcludePass(t, rule.pattern), t.temps)
  }

  /** A whole rule list, applied in order. */
  function ApplyRules(t: Table, rules: seq<Rule>, catalog: seq<ItemType>): (r: Table)
    requires WellFormed(t)
    ensures WellFormed(r)
  {
    if rules == [] then t
    else
      var n := |rules| - 1;
      ApplyRule(ApplyRules(t, rules[..n], catalog), rules[n], catalog)
  }

  /** Several rule lists, applied in order (global before character for a player). */
  function ApplyLists(t: Table, lists: seq<seq<Rule>>, catalog: seq<ItemType>): (r: Table)
    requires WellFormed(t)
    ensures WellFormed(r)
  {
    if lists == [] then t
    else
      var n := |lists| - 1;
      ApplyRules(ApplyLists(t, lists[..n], catalog), lists[n], catalog)
  }

  /** The map a rebuild produces from an empty cache. */
  function Rebuild(lists: seq<seq<Rule>>, catalog: seq<ItemType>): map<string, RuleState>
  {
    ApplyLists(Table(map[], map[]), lists, catalog).items
  }

  /** The map a query sees: the current one if the cache is ready, a rebuilt one if not. */
  function Refreshed(ready: bool, items: map<string, RuleState>, lists: seq<seq<Rule>>,
                     catalog: seq<ItemType>): map<string, RuleState>
  {
    if ready then items else Rebuild(lists, catalog)
  }

  /** `check_item`'s lookup: a name absent from the map has no rule. */
  function Lookup(items: map<string, RuleState>, name: string): (s: RuleState)
    ensures name !in items ==> s == NoRule
    ensures name in items ==> s == items[name]
  {
    if name in items then items[name] else NoRule
  }

  /** `rule_list::create_rule` for one item: every active rule that matches the item
    * (material filter on its actual materials, or wildcard on its name) writes its state
    * under the item's name. The string overload is the case of an item with no materials. */
  function CreateRule(items: map<string, RuleState>, rules: seq<Rule>, name: string,
                      materials: set<string>): map<string, RuleState>
  {
    if rules == [] then items
    else
      var n := |rules| - 1;
      var m := CreateRule(items, rules[..n], name, materials);
      if Decides(rules[n], name, materials) then m[name := StateOf(rules[n])] else m
  }

  /** A rule that `create_rule` writes from. */
  predicate Decides(r: Rule, name: string, materials: set<string>)
  {
    r.active && RuleMatches(materials, name, r.pattern)
  }

  // ---------------------------------------------------------------------------------------
  // Properties of the rebuild

  /** What one rule does: a skipped rule changes nothing; an exclude rule keeps the names
    * and the representatives and can only blacklist; an include rule can only whitelist;
    * representatives always stay catalog entries of their own name. */
  lemma ApplyRuleSpec(t: Table, rule: Rule, catalog: seq<ItemType>)
    requires WellFormed(t)
    ensures var r := ApplyRule(t, rule, catalog);
      && (rule.pattern == [] || !rule.active ==> r == t)
      && (rule.exclude ==> r.items.Keys == t.items.Keys && r.temps == t.temps)
      && (rule.exclude ==> forall k :: k in r.items ==> r.items[k] == t.items[k] || r.items[k] == Blacklisted)
      && (!rule.exclude ==> forall k :: k in r.items ==>
            (k in t.items && r.items[k] == t.items[k]) || r.items[k] == Whitelisted)
      && (FromCatalog(t, catalog) ==> FromCatalog(r, catalog))
  {
    IncludePassSpec(t, rule.pattern, catalog);
  }

  /** Representatives are catalog entries filed under their own name, through a whole list. */
  lemma {:induction false} ApplyRulesFromCatalog(t: Table, rules: seq<Rule>, catalog: seq<ItemType>)
    requires WellFormed(t) && FromCatalog(t, catalog)
    ensures FromCatalog(ApplyRules(t, rules, catalog), catalog)
  {
    if rules != [] {
      var n := |rules| - 1;
      ApplyRulesFromCatalog(t, rules[..n], catalog);
      ApplyRuleSpec(ApplyRules(t, rules[..n], catalog), rules[n], catalog);
    }
  }

  lemma {:induction false} ApplyRulesAppend(t: Table, a: seq<Rule>, b: seq<Rule>, catalog: seq<ItemType>)
    requires WellFormed(t)
    ensures ApplyRules(t, a + b, catalog) == ApplyRules(ApplyRules(t, a, catalog), b, catalog)
    decreases |b|
  {
    if b == [] {
      assert a + b == a;
    } else {
      var n := |b| - 1;
      assert (a + b)[..|a| + n] == a + b[..n];
      ApplyRulesAppend(t, a, b[..n], catalog);
    }
  }

  /** Applying the global list and then the character list is applying their
    * concatenation: later rules see (and overwrite) what earlier ones wrote. */
  lemma TwoListsAreOneList(g: seq<Rule>, c: seq<Rule>, catalog: seq<ItemType>)
    ensures Rebuild([g, c], catalog) == ApplyRules(Table(map[], map[]), g + c, catalog).items
  {
    var e := Table(map[], map[]);
    assert [g, c][..1] == [g];
    assert [g][..0] == [];
    assert ApplyLists(e, [g], catalog) == ApplyRules(e, g, catalog);
    assert ApplyLists(e, [g, c], catalog) == ApplyRules(ApplyLists(e, [g], catalog), c, catalog);
    ApplyRulesAppend(e, g, c, catalog);
  }

  /** A name whitelisted by an include rule stays whitelisted unless a later active exclude
    * rule can hit that name: through the name itself, or through the materials of a catalog
    * entry of that name. */
  predicate ExcludeMayHit(r: Rule, name: string, catalog: seq<ItemType>)
  {
    r.active && r.pattern != [] && r.exclude &&
    (WildcardMatch(name, r.pattern) || exists e :: e in catalog && e.name == name && TypeMatches(e, r.pattern))
  }

  lemma {:induction false} IncludeSurvives(t: Table, rules: seq<Rule>, i: nat, e: ItemType, catalog: seq<ItemType>)
    requires WellFormed(t) && FromCatalog(t, catalog)
    requires i < |rules| && e in catalog
    requires rules[i].active && rules[i].pattern != [] && !rules[i].exclude && TypeMatches(e, rules[i].pattern)
    requires forall j :: i < j < |rules| ==> !ExcludeMayHit(rules[j], e.name, catalog)
    ensures e.name in ApplyRules(t, rules, catalog).items
    ensures ApplyRules(t, rules, catalog).items[e.name] == Whitelisted
  {
    var n := |rules| - 1;
    var prev := ApplyRules(t, rules[..n], catalog);
    var r := rules[n];
    assert ApplyRules(t, rules, catalog) == ApplyRule(prev, r, catalog);
    if i < n {
      assert forall j :: i < j < n ==> rules[..n][j] == rules[j];
      IncludeSurvives(t, rules[..n], i, e, catalog);
      ApplyRulesFromCatalog(t, rules[..n], catalog);
      WhitelistKept(prev, r, e.name, catalog);
    } else {
      IncludePassSpec(prev, r.pattern, catalog);
    }
  }

  /** A rule that is not an exclude rule able to hit the name leaves a whitelisted name
    * whitelisted. */
  lemma WhitelistKept(t: Table, r: Rule, name: string, catalog: seq<ItemType>)
    requires WellFormed(t) && FromCatalog(t, catalog) && name in t.items && t.items[name] == Whitelisted
    requires !ExcludeMayHit(r, name, catalog)
    ensures name in ApplyRule(t, r, catalog).items
    ensures ApplyRule(t, r, catalog).items[name] == Whitelisted
  {
    if r.active && r.pattern != [] && r.exclude {
      ExcludeMisses(t, r, name, catalog);
    } else {
      ApplyRuleSpec(t, r, catalog);
      if r.active && r.pattern != [] {
        IncludePassSpec(t, r.pattern, catalog);
      }
    }
  }

  /** An exclude rule that cannot hit a name leaves that name's entry as it was. */
  lemma ExcludeMisses(t: Table, r: Rule, name: string, catalog: seq<ItemType>)
    requires WellFormed(t) && FromCatalog(t, catalog) && name in t.items
    requires r.active && r.pattern != [] && r.exclude && !ExcludeMayHit(r, name, catalog)
    ensures name in ApplyRule(t, r, catalog).items
    ensures ApplyRule(t, r, catalog).items[name] == t.items[name]
  {
    var rep := t.temps[name];
    assert rep in catalog && rep.name == name;
    assert !ExcludeHits(t, name, r.pattern);
  }

  /** An active include rule that may whitelist `name`: it matches a catalog entry of that
    * name. */
  predicate IncludeMayHit(r: Rule, name: string, catalog: seq<ItemType>)
  {
    r.active && r.pattern != [] && !r.exclude &&
    exists e :: e in catalog && e.name == name && TypeMatches(e, r.pattern)
  }

  /** A name blacklisted by an exclude rule (through its name or its representative's
    * materials) stays blacklisted unless a later active include rule matches a catalog entry
    * of that name. */
  lemma {:induction false} ExcludeSurvives(t: Table, rules: seq<Rule>, i: nat, name: string, catalog: seq<ItemType>)
    requires WellFormed(t)
    requires i < |rules|
    requires rules[i].active && rules[i].pattern != [] && rules[i].exclude
    requires name in ApplyRules(t, rules[..i], catalog).items
    requires ExcludeHits(ApplyRules(t, rules[..i], catalog), name, rules[i].pattern)
    requires forall j :: i < j < |rules| ==> !IncludeMayHit(rules[j], name, catalog)
    ensures name in ApplyRules(t, rules, catalog).items
    ensures ApplyRules(t, rules, catalog).items[name] == Blacklisted
  {
    var n := |rules| - 1;
    var prev := ApplyRules(t, rules[..n], catalog);
    var r := rules[n];
    if i < n {
      assert rules[..n][..i] == rules[..i];
      assert forall j :: i < j < n ==> rules[..n][j] == rules[j];
      ExcludeSurvives(t, rules[..n], i, name, catalog);
      IncludeMisses(prev, r, name, catalog);
    } else {
      assert rules[..n] == rules[..i];
    }
  }

  /** A rule that is not an include rule matching a catalog entry of the name leaves a
    * blacklisted name blacklisted. */
  lemma IncludeMisses(t: Table, r: Rule, name: string, catalog: seq<ItemType>)
    requires WellFormed(t) && name in t.items && t.items[name] == Blacklisted
    requires !IncludeMayHit(r, name, catalog)
    ensures name in ApplyRule(t, r, catalog).items
    ensures ApplyRule(t, r, catalog).items[name] == Blacklisted
  {
    ApplyRuleSpec(t, r, catalog);
    if r.active && r.pattern != [] && !r.exclude {
      IncludePassSpec(t, r.pattern, catalog);
    }
  }

  /** An exclude rule never adds a name and never whitelists one. */
  lemma ExcludeOnlyNarrows(t: Table, r: Rule, catalog: seq<ItemType>, name: string)
    requires WellFormed(t) && r.exclude
    ensures name in ApplyRule(t, r, catalog).items <==> name in t.items
    ensures name in t.items && ApplyRule(t, r, catalog).items[name] == Whitelisted ==>
      t.items[name] == Whitelisted
  {
    ApplyRuleSpec(t, r, catalog);
  }

  /** The include rule `*arrow` over the catalog entries "wooden arrow" and "steel arrow"
    * whitelists both, each as its own representative. */
  lemma ArrowInclude(wa: ItemType, sa: ItemType)
    requires wa.name == "wooden arrow" && sa.name == "steel arrow"
    ensures IncludePass(Table(map[], map[]), "*arrow", [wa, sa]) ==
      Table(map["wooden arrow" := Whitelisted, "steel arrow" := Whitelisted],
            map["wooden arrow" := wa, "steel arrow" := sa])
  {
    var e := Table(map[], map[]);
    ArrowMatches(wa);
    ArrowMatches(sa);
    assert "wooden arrow"[0] != "steel arrow"[0];
    assert [wa, sa][..1] == [wa] && [wa][..0] == [];
    assert IncludePass(e, "*arrow", []) == e;
    var t1 := IncludePass(e, "*arrow", [wa]);
    assert t1 == Table(e.items[wa.name := Whitelisted], e.temps[wa.name := wa]);
    assert IncludePass(e, "*arrow", [wa, sa]) == Table(t1.items[sa.name := Whitelisted], t1.temps[sa.name := sa]);
  }

  lemma ArrowMatches(a: ItemType)
    requires a.name == "wooden arrow" || a.name == "steel arrow"
    ensures TypeMatches(a, "*arrow")
  {
    StarSuffix("wooden ", "arrow");
    StarSuffix("steel ", "arrow");
    assert "wooden " + "arrow" == "wooden arrow" && "steel " + "arrow" == "steel arrow";
    assert ['*'] + "arrow" == "*arrow";
  }

  /** `steel*` matches the steel arrow's name and not the wooden arrow's. */
  lemma SteelStar()
    ensures WildcardMatch("steel arrow", "steel*") && !WildcardMatch("wooden arrow", "steel*")
  {
    StarPrefix("steel", " arrow");
    assert "steel" + " arrow" == "steel arrow" && "steel" + ['*'] == "steel*";
    assert !GlobMatch("wooden arrow", "steel*");
  }

  /** The exclude rule `steel*` then blacklists only the steel arrow. */
  lemma ArrowExclude(wa: ItemType, sa: ItemType)
    requires wa.name == "wooden arrow" && sa.name == "steel arrow"
    ensures var t := Table(map["wooden arrow" := Whitelisted, "steel arrow" := Whitelisted],
                           map["wooden arrow" := wa, "steel arrow" := sa]);
      ExcludePass(t, "steel*") == map["wooden arrow" := Whitelisted, "steel arrow" := Blacklisted]
  {
    var t := Table(map["wooden arrow" := Whitelisted, "steel arrow" := Whitelisted],
                   map["wooden arrow" := wa, "steel arrow" := sa]);
    SteelStar();
    assert ExcludeHits(t, "steel arrow", "steel*");
    assert !ExcludeHits(t, "wooden arrow", "steel*");
  }

  /** With catalog entries "wooden arrow" and "steel arrow", the include rule `*arrow`
    * followed by the exclude rule `steel*` leaves the wooden arrow whitelisted and
    * blacklists the steel arrow. */
  lemma ArrowExample(wood: set<string>, steel: set<string>)
    ensures
      var catalog := [ItemType("wooden arrow", wood), ItemType("steel arrow", steel)];
      Rebuild([[Rule("*arrow", true, false), Rule("steel*", true, true)]], catalog) ==
        map["wooden arrow" := Whitelisted, "steel arrow" := Blacklisted]
  {
    var wa, sa := ItemType("wooden arrow", wood), ItemType("steel arrow", steel);
    var catalog := [wa, sa];
    var incl, excl := Rule("*arrow", true, false), Rule("steel*", true, true);
    var rules := [incl, excl];
    var e := Table(map[], map[]);
    var t1 := Table(map["wooden arrow" := Whitelisted, "steel arrow" := Whitelisted],
                    map["wooden arrow" := wa, "steel arrow" := sa]);
    ArrowInclude(wa, sa);
    ArrowExclude(wa, sa);
    assert rules[..1] == [incl] && [incl][..0] == [];
    assert ApplyRules(e, [incl], catalog) == t1 by {
      assert ApplyRules(e, [], catalog) == e;
    }
    assert ApplyRules(e, rules, catalog) == Table(ExcludePass(t1, "steel*"), t1.temps);
    var lists: seq<seq<Rule>> := [rules];
    assert lists[..0] == [];
    assert ApplyLists(e, lists, catalog) == ApplyRules(e, rules, catalog);
  }

  // ---------------------------------------------------------------------------------------
  // Properties of on-demand classification

  /** Whatever the rules wrote under the item's name, overwriting that entry gives the
    * original map overwritten there. */
  lemma {:induction false} CreateRuleOverwritten(items: map<string, RuleState>, rules: seq<Rule>,
                                                 name: string, materials: set<string>, v: RuleState)
    ensures CreateRule(items, rules, name, materials)[name := v] == items[name := v]
  {
    if rules != [] {
      CreateRuleOverwritten(items, rules[..|rules| - 1], name, materials, v);
    }
  }

  /** The last active rule that matches the item decides its entry. */
  lemma {:induction false} LastMatchDecides(items: map<string, RuleState>, rules: seq<Rule>,
                                            name: string, materials: set<string>, i: nat)
    requires i < |rules| && Decides(rules[i], name, materials)
    requires forall j :: i < j < |rules| ==> !Decides(rules[j], name, materials)
    ensures CreateRule(items, rules, name, materials) == items[name := StateOf(rules[i])]
  {
    var n := |rules| - 1;
    if i < n {
      assert forall j :: i < j < n ==> rules[..n][j] == rules[j];
      LastMatchDecides(items, rules[..n], name, materials, i);
    } else {
      CreateRuleOverwritten(items, rules[..n], name, materials, StateOf(rules[i]));
    }
  }

  /** When no active rule matches the item, the map is unchanged. */
  lemma {:induction false} NoMatchKeeps(items: map<string, RuleState>, rules: seq<Rule>,
                                        name: string, materials: set<string>)
    requires forall j :: 0 <= j < |rules| ==> !Decides(rules[j], name, materials)
    ensures CreateRule(items, rules, name, materials) == items
  {
    if rules != [] {
      var n := |rules| - 1;
      assert forall j :: 0 <= j < n ==> rules[..n][j] == rules[j];
      NoMatchKeeps(items, rules[..n], name, materials);
    }
  }

  /** `create_rule` only ever writes the item's own name. */
  lemma {:induction false} CreateRuleTouchesOnlyName(items: map<string, RuleState>, rules: seq<Rule>,
                                                     name: string, materials: set<string>, other: string)
    requires other != name
    ensures other in CreateRule(items, rules, name, materials) <==> other in items
    ensures other in items ==> CreateRule(items, rules, name, materials)[other] == items[other]
  {
    if rules != [] {
      CreateRuleTouchesOnlyName(items, rules[..|rules| - 1], name, materials, other);
    }
  }

  /** Creating from the global list and then from the character list is creating from
    * their concatenation. */
  lemma {:induction false} CreateRuleAppend(items: map<string, RuleState>, a: seq<Rule>, b: seq<Rule>,
                                            name: string, materials: set<string>)
    ensures CreateRule(CreateRule(items, a, name, materials), b, name, materials) ==
            CreateRule(items, a + b, name, materials)
    decreases |b|
  {
    if b == [] {
      assert a + b == a;
    } else {
      var n := |b| - 1;
      assert (a + b)[..|a| + n] == a + b[..n];
      CreateRuleAppend(items, a, b[..n], name, materials);
    }
  }

  // ---------------------------------------------------------------------------------------
  // The cache object

  class Cache {
    var items: map<string, RuleState>
    var tempItems: map<string, ItemType>
    var ready: bool

    function Contents(): Table
      reads this
    {
      Table(items, tempItems)
    }

    /** A new cache is empty and stale. */
    constructor ()
      ensures items == map[] && tempItems == map[] && !ready
    {
      items, tempItems, ready := map[], map[], false;
    }

    /** `rule_list::refresh_map_items`: apply one rule list to this cache. */
    method ApplyRuleList(rules: seq<Rule>, catalog: seq<ItemType>)
      requires WellFormed(Contents())
      modifies this
      ensures Contents() == ApplyRules(old(Contents()), rules, catalog)
      ensures ready == old(ready)
    {
      ghost var start := Contents();
      var i := 0;
      while i < |rules|
        invariant 0 <= i <= |rules|
        invariant WellFormed(Contents())
        invariant Contents() == ApplyRules(start, rules[..i], catalog)
        invariant ready == old(ready)
      {
        var rule := rules[i];
        assert rules[..i + 1][..i] == rules[..i];
        if rule.pattern != [] && rule.active {
          if !rule.exclude {
            IncludeScan(rule.pattern, catalog);
          } else {
            ExcludeScan(rule.pattern);
          }
        }
        i := i + 1;
      }
      assert rules[..i] == rules;
    }

    /** The include branch: scan the whole catalog. */
    method IncludeScan(pattern: string, catalog: seq<ItemType>)
      requires WellFormed(Contents())
      modifies this
      ensures Contents() == IncludePass(old(Contents()), pattern, catalog)
      ensures ready == old(ready)
    {
      ghost var start := Contents();
      var i := 0;
      while i < |catalog|
        invariant 0 <= i <= |catalog|
        invariant Contents() == IncludePass(start, pattern, catalog[..i])
        invariant ready == old(ready)
      {
        var e := catalog[i];
        assert catalog[..i + 1][..i] == catalog[..i];
        if SpecialRule(e.materials, pattern) || WildcardMatch(e.name, pattern) {
          items := items[e.name := Whitelisted];
          tempItems := tempItems[e.name := e];
        }
        i := i + 1;
      }
      assert catalog[..i] == catalog;
    }

    /** The exclude branch: revisit only the names already in the map. Every key has a
      * representative throughout (`WellFormed`), so `temp_items[key]` is always present. */
    method ExcludeScan(pattern: string)
      requires WellFormed(Contents())
      modifies this
      ensures items == ExcludePass(old(Contents()), pattern)
      ensures tempItems == old(tempItems) && ready == old(ready)
    {
      ghost var start := Contents();
      var pending := items.Keys;
      ghost var done: set<string> := {};
      while pending != {}
        invariant pending + done == start.items.Keys && pending !! done
        invariant items.Keys == start.items.Keys
        invariant tempItems == start.temps && ready == old(ready)
        invariant WellFormed(Contents())
        invariant forall k :: k in items ==>
          items[k] == (if k in done && ExcludeHits(start, k, pattern) then Blacklisted else start.items[k])
        decreases pending
      {
        var k :| k in pending;
        if SpecialRule(tempItems[k].materials, pattern) || WildcardMatch(k, pattern) {
          items := items[k := Blacklisted];
        }
        pending := pending - {k};
        done := done + {k};
      }
      assert items == ExcludePass(start, pattern);
    }

    /** The scope's `refresh_map_items`: its lists applied in order. */
    method RefreshMapItems(lists: seq<seq<Rule>>, catalog: seq<ItemType>)
      requires WellFormed(Contents())
      modifies this
      ensures Contents() == ApplyLists(old(Contents()), lists, catalog)
      ensures ready == old(ready)
    {
      ghost var start := Contents();
      var i := 0;
      while i < |lists|
        invariant 0 <= i <= |lists|
        invariant WellFormed(Contents())
        invariant Contents() == ApplyLists(start, lists[..i], catalog)
        invariant ready == old(ready)
      {
        assert lists[..i + 1][..i] == lists[..i];
        ApplyRuleList(lists[i], catalog);
        i := i + 1;
      }
      assert lists[..i] == lists;
    }

    /** `base_settings::recreate`: rebuild from scratch, mark ready, drop the side table. */
    method Recreate(lists: seq<seq<Rule>>, catalog: seq<ItemType>)
      modifies this
      ensures items == Rebuild(lists, catalog)
      ensures ready && tempItems == map[]
    {
      items := map[];
      tempItems := map[];
      RefreshMapItems(lists, catalog);
      ready := true;
      tempItems := map[];
    }

    /** `base_settings::invalidate`: only the flag changes. */
    method Invalidate()
      modifies this
      ensures !ready
      ensures items == old(items) && tempItems == old(tempItems)
    {
      ready := false;
    }

    /** `base_settings::check_item`: rebuild when stale, then look the name up. */
    method CheckItem(lists: seq<seq<Rule>>, name: string, catalog: seq<ItemType>) returns (state: RuleState)
      modifies this
      ensures ready
      ensures items == Refreshed(old(ready), old(items), lists, catalog)
      ensures state == Lookup(items, name)
      ensures tempItems == if old(ready) then old(tempItems) else map[]
    {
      if !ready {
        Recreate(lists, catalog);
      }
      var found := name in items;
      if found {
        state := items[name];
      } else {
        state := NoRule;
      }
    }

    /** `rule_list::create_rule(cache &, const std::string &)`: wildcard rules only. */
    method CreateRuleForName(rules: seq<Rule>, name: string)
      modifies this
      ensures items == CreateRule(old(items), rules, name, {})
      ensures tempItems == old(tempItems) && ready == old(ready)
    {
      var i := 0;
      while i < |rules|
        invariant 0 <= i <= |rules|
        invariant items == CreateRule(old(items), rules[..i], name, {})
        invariant tempItems == old(tempItems) && ready == old(ready)
      {
        var rule := rules[i];
        assert rules[..i + 1][..i] == rules[..i];
        if rule.active && WildcardMatch(name, rule.pattern) {
          items := items[name := if rule.exclude then Blacklisted else Whitelisted];
        }
        i := i + 1;
      }
      assert rules[..i] == rules;
    }

    /** `rule_list::create_rule(cache &, const item &)`: material filters against the item's
      * actual materials, or the wildcard against its name. */
    method CreateRuleForItem(rules: seq<Rule>, it: Item)
      modifies this
      ensures items == CreateRule(old(items), rules, it.name, it.materials)
      ensures tempItems == old(tempItems) && ready == old(ready)
    {
      var i := 0;
      while i < |rules|
        invariant 0 <= i <= |rules|
        invariant items == CreateRule(old(items), rules[..i], it.name, it.materials)
        invariant tempItems == old(tempItems) && ready == old(ready)
      {
        var rule := rules[i];
        assert rules[..i + 1][..i] == rules[..i];
        if rule.active {
          if SpecialRule(it.materials, rule.pattern) || WildcardMatch(it.name, rule.pattern) {
            items := items[it.name := if rule.exclude then Blacklisted else Whitelisted];
          }
        }
        i := i + 1;
      }
      assert rules[..i] == rules;
    }
  }
}
