/**
 * The two settings scopes. A player has a global and a character rule list, applied in that
 * order; an NPC has one list. Each scope owns a classification cache.
 */
module Settings {
  import opened Matching
  import opened Rules
  import opened Items
  import opened Classification

  /** `player_settings`. */
  class PlayerSettings {
    var globalRules: seq<Rule>
    var characterRules: seq<Rule>
    const cache: Cache

    /** The lists in the order the rebuild applies them. */
    function Lists(): seq<seq<Rule>>
      reads this
    {
      [globalRules, characterRules]
    }

    constructor (global: seq<Rule>, character: seq<Rule>)
      ensures globalRules == global && characterRules == character
      ensures fresh(cache) && cache.items == map[] && cache.tempItems == map[] && !cache.ready
    {
      globalRules := global;
      characterRules := character;
      cache := new Cache();
    }

    /** `player_settings::refresh_map_items`: the global list, then the character list. */
    method RefreshMapItems(catalog: seq<ItemType>)
      requires WellFormed(cache.Contents())
      modifies cache
      ensures cache.Contents() ==
        ApplyRules(ApplyRules(old(cache.Contents()), globalRules, catalog), characterRules, catalog)
      ensures cache.ready == old(cache.ready)
    {
      ghost var start := cache.Contents();
      cache.RefreshMapItems(Lists(), catalog);
      assert Lists()[..1] == [globalRules] && [globalRules][..0] == [];
      assert ApplyLists(start, [globalRules], catalog) == ApplyRules(start, globalRules, catalog);
    }

    /** `base_settings::recreate` on the player's lists. */
    method Recreate(catalog: seq<ItemType>)
      modifies cache
      ensures cache.items == Rebuild(Lists(), catalog)
      ensures cache.ready && cache.tempItems == map[]
    {
      cache.Recreate(Lists(), catalog);
    }

    /** `base_settings::check_item` on the player's lists. */
    method CheckItem(name: string, catalog: seq<ItemType>) returns (state: RuleState)
      modifies cache
      ensures cache.ready
      ensures cache.items == Refreshed(old(cache.ready), old(cache.items), Lists(), catalog)
      ensures state == Lookup(cache.items, name)
      ensures cache.tempItems == if old(cache.ready) then old(cache.tempItems) else map[]
    {
      state := cache.CheckItem(Lists(), name, catalog);
    }

    /** `base_settings::invalidate`. */
    method Invalidate()
      modifies cache
      ensures !cache.ready
      ensures cache.items == old(cache.items) && cache.tempItems == old(cache.tempItems)
    {
      cache.Invalidate();
    }

    /** `player_settings::create_rule`: the global list, then the character list, matched
      * against the item's own name and materials. */
    method CreateRule(it: Item)
      modifies cache
      ensures cache.items == Classification.CreateRule(old(cache.items), globalRules + characterRules,
                                                      it.name, it.materials)
      ensures cache.tempItems == old(cache.tempItems) && cache.ready == old(cache.ready)
    {
      cache.CreateRuleForItem(globalRules, it);
      cache.CreateRuleForItem(characterRules, it);
      CreateRuleAppend(old(cache.items), globalRules, characterRules, it.name, it.materials);
    }

    /** `player_settings::add_rule`: append `(name, active, !pickUp)` to the character list
      * and classify the item at once. The cache is not invalidated. */
    method AddRule(it: Item, pickUp: bool)
      modifies this, cache
      ensures characterRules == old(characterRules) + [Rule(it.name, true, !pickUp)]
      ensures globalRules == old(globalRules)
      ensures cache.items == Classification.CreateRule(old(cache.items), globalRules + characterRules,
                                                      it.name, it.materials)
      ensures cache.tempItems == old(cache.tempItems) && cache.ready == old(cache.ready)
    {
      characterRules := characterRules + [Rule(it.name, true, !pickUp)];
      CreateRule(it);
    }

    /** `player_settings::has_rule`: some character rule equals the name ignoring case. */
    function HasRule(name: string): (b: bool)
      reads this
      ensures b <==> exists i :: 0 <= i < |characterRules| && SameNameRule(name, characterRules[i])
    {
      FirstSameName(characterRules, name) < |characterRules|
    }

    /** `player_settings::remove_rule`: erase the first character rule equal to the name
      * ignoring case, and invalidate only when one was erased. */
    method RemoveRule(name: string)
      modifies this, cache
      ensures globalRules == old(globalRules)
      ensures var i := FirstSameName(old(characterRules), name);
        if i < |old(characterRules)| then characterRules == EraseAt(old(characterRules), i) && !cache.ready
        else characterRules == old(characterRules) && cache.ready == old(cache.ready)
      ensures cache.items == old(cache.items) && cache.tempItems == old(cache.tempItems)
    {
      var i := 0;
      while i < |characterRules|
        invariant 0 <= i <= |characterRules|
        invariant characterRules == old(characterRules) && globalRules == old(globalRules)
        invariant cache.items == old(cache.items) && cache.tempItems == old(cache.tempItems)
        invariant cache.ready == old(cache.ready)
        invariant forall k :: 0 <= k < i ==> !SameNameRule(name, characterRules[k])
      {
        if |name| == |characterRules[i].pattern| && CiContains(name, characterRules[i].pattern) {
          FirstIsFirst(characterRules, name, i);
          characterRules := EraseAt(characterRules, i);
          Invalidate();
          return;
        }
        i := i + 1;
      }
      FirstIsFirst(characterRules, name, i);
    }

    /** `player_settings::empty`. */
    function Empty(): (b: bool)
      reads this
      ensures b <==> |globalRules| + |characterRules| == 0
    {
      globalRules == [] && characterRules == []
    }

    /** `player_settings::clear_character_rules`. */
    method ClearCharacterRules()
      modifies this, cache
      ensures characterRules == [] && globalRules == old(globalRules)
      ensures !cache.ready
      ensures cache.items == old(cache.items) && cache.tempItems == old(cache.tempItems)
    {
      characterRules := [];
      Invalidate();
    }
  }

  /** `npc_settings`. */
  class NpcSettings {
    var rules: seq<Rule>
    const cache: Cache

    constructor (r: seq<Rule>)
      ensures rules == r
      ensures fresh(cache) && cache.items == map[] && cache.tempItems == map[] && !cache.ready
    {
      rules := r;
      cache := new Cache();
    }

    /** `npc_settings::refresh_map_items`: the one list. */
    method RefreshMapItems(catalog: seq<ItemType>)
      requires WellFormed(cache.Contents())
      modifies cache
      ensures cache.Contents() == ApplyRules(old(cache.Contents()), rules, catalog)
      ensures cache.ready == old(cache.ready)
    {
      cache.RefreshMapItems([rules], catalog);
      assert [rules][..0] == [];
    }

    /** `base_settings::check_item` on the NPC's list. */
    method CheckItem(name: string, catalog: seq<ItemType>) returns (state: RuleState)
      modifies cache
      ensures cache.ready
      ensures cache.items == Refreshed(old(cache.ready), old(cache.items), [rules], catalog)
      ensures cache.tempItems == if old(cache.ready) then old(cache.tempItems) else map[]
      ensures state == Lookup(cache.items, name)
    {
      state := cache.CheckItem([rules], name, catalog);
    }

    /** `npc_settings::create_rule`: wildcard rules against the name only (harvest pickup). */
    method CreateRule(name: string)
      modifies cache
      ensures cache.items == Classification.CreateRule(old(cache.items), rules, name, {})
      ensures cache.tempItems == old(cache.tempItems) && cache.ready == old(cache.ready)
    {
      cache.CreateRuleForName(rules, name);
    }

    /** `npc_settings::empty`. */
    function Empty(): (b: bool)
      reads this
      ensures b <==> |rules| == 0
    {
      rules == []
    }
  }

  /** The index the removal loop stops at is the first same-name rule. */
  lemma FirstIsFirst(rules: seq<Rule>, name: string, i: nat)
    requires i <= |rules|
    requires forall k :: 0 <= k < i ==> !SameNameRule(name, rules[k])
    requires i < |rules| ==> SameNameRule(name, rules[i])
    ensures FirstSameName(rules, name) == i
  {
  }

  // ---------------------------------------------------------------------------------------
  // Properties of the character-list operations

  /** A rule added for an item decides that item: on-demand classification of the same item
    * right after gives the added rule's verdict, whatever the earlier rules say. */
  lemma AddedRuleDecides(items: map<string, RuleState>, rules: seq<Rule>, it: Item, pickUp: bool)
    requires it.name != []
    ensures var added := rules + [Rule(it.name, true, !pickUp)];
      var m := Classification.CreateRule(items, added, it.name, it.materials);
      it.name in m && m[it.name] == (if pickUp then Whitelisted else Blacklisted)
  {
    var added := rules + [Rule(it.name, true, !pickUp)];
    SelfMatch(it.name);
    assert Decides(added[|rules|], it.name, it.materials);
    LastMatchDecides(items, added, it.name, it.materials, |rules|);
  }

  /** A rule added for a name is found again by `has_rule` under that name. */
  lemma AddedRuleIsFound(rules: seq<Rule>, name: string, exclude: bool)
    ensures var added := rules + [Rule(name, true, exclude)];
      exists i :: 0 <= i < |added| && SameNameRule(name, added[i])
  {
    var r := Rule(name, true, exclude);
    SameNameRuleIsCaseInsensitiveEquality(name, r);
    assert (rules + [r])[|rules|] == r;
  }

  /** `has_rule`'s test is equality ignoring case. */
  lemma HasRuleIgnoresCase(rules: seq<Rule>, name: string)
    ensures (exists i :: 0 <= i < |rules| && SameNameRule(name, rules[i])) <==>
      (exists i :: 0 <= i < |rules| && Lower(name) == Lower(rules[i].pattern))
  {
    forall i | 0 <= i < |rules|
      ensures SameNameRule(name, rules[i]) <==> Lower(name) == Lower(rules[i].pattern)
    {
      SameNameRuleIsCaseInsensitiveEquality(name, rules[i]);
    }
  }

  /** Counting the rules equal to `name` ignoring case. */
  function SameNameCount(rules: seq<Rule>, name: string): (n: nat)
    ensures n <= |rules|
    ensures n == 0 <==> FirstSameName(rules, name) == |rules|
  {
    if rules == [] then 0
    else (if SameNameRule(name, rules[0]) then 1 else 0) + SameNameCount(rules[1..], name)
  }

  /** A removal takes out exactly one same-name rule when there is one; `EraseAt` leaves
    * every other rule in place. */
  lemma RemovalTakesOne(rules: seq<Rule>, name: string)
    requires FirstSameName(rules, name) < |rules|
    ensures SameNameCount(EraseAt(rules, FirstSameName(rules, name)), name) + 1 == SameNameCount(rules, name)
  {
    EraseCount(rules, name, FirstSameName(rules, name));
  }

  /** Erasing one rule lowers the count by one exactly when that rule has the name. */
  lemma EraseCount(rules: seq<Rule>, name: string, i: nat)
    requires i < |rules|
    ensures SameNameCount(EraseAt(rules, i), name) + (if SameNameRule(name, rules[i]) then 1 else 0) ==
      SameNameCount(rules, name)
  {
    var front, back := rules[..i], rules[i + 1..];
    assert rules == front + ([rules[i]] + back);
    assert ([rules[i]] + back)[1..] == back;
    CountAppend(front, [rules[i]] + back, name);
    CountAppend(front, back, name);
  }

  /** Counting over a concatenation adds up. */
  lemma {:induction false} CountAppend(a: seq<Rule>, b: seq<Rule>, name: string)
    ensures SameNameCount(a + b, name) == SameNameCount(a, name) + SameNameCount(b, name)
  {
    if a == [] {
      assert a + b == b;
    } else {
      assert (a + b)[1..] == a[1..] + b;
      CountAppend(a[1..], b, name);
    }
  }

  /** With no rules at all, a rebuild classifies nothing. */
  lemma {:induction false} NoRulesNoEntries(lists: seq<seq<Rule>>, catalog: seq<ItemType>)
    requires forall i :: 0 <= i < |lists| ==> lists[i] == []
    ensures Rebuild(lists, catalog) == map[]
  {
    var e := Table(map[], map[]);
    NoRulesKeep(e, lists, catalog);
  }

  lemma {:induction false} NoRulesKeep(t: Table, lists: seq<seq<Rule>>, catalog: seq<ItemType>)
    requires WellFormed(t)
    requires forall i :: 0 <= i < |lists| ==> lists[i] == []
    ensures ApplyLists(t, lists, catalog) == t
  {
    if lists != [] {
      var n := |lists| - 1;
      assert forall i :: 0 <= i < n ==> lists[..n][i] == lists[i];
      NoRulesKeep(t, lists[..n], catalog);
    }
  }
}
