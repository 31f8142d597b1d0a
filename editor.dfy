/**
 * The rule-list edits of the auto-pickup manager window. The window edits copies of the
 * rule lists (one tab per list: global, and character when there is a character) and writes
 * them back only when something changed and the player confirmed. Rendering, key handling,
 * the text prompt and cursor navigation are not modelled; an edit action is a method.
 */
module Editor {
  import opened Rules
  import opened Settings

  // ---------------------------------------------------------------------------------------
  // List helpers

  /** `std::swap` of two entries. */
  function Swapped<T>(s: seq<T>, i: nat, j: nat): (r: seq<T>)
    requires i < |s| && j < |s|
    ensures |r| == |s| && r[i] == s[j] && r[j] == s[i]
    ensures forall k :: 0 <= k < |s| && k != i && k != j ==> r[k] == s[k]
  {
    s[i := s[j]][j := s[i]]
  }

  /** Swapping reorders the list and loses nothing. */
  lemma SwappedIsPermutation<T>(s: seq<T>, i: nat, j: nat)
    requires i < |s| && j < |s|
    ensures multiset(Swapped(s, i, j)) == multiset(s)
  {
    if i != j {
      var t := s[i := s[j]];
      assert multiset(t) == multiset(s) - multiset{s[i]} + multiset{s[j]};
      assert multiset(t[j := s[i]]) == multiset(t) - multiset{t[j]} + multiset{s[i]};
    }
  }

  /** Moving a rule up and then down again restores the list. */
  lemma MoveUpThenDown<T>(s: seq<T>, i: nat)
    requires i + 1 < |s|
    ensures Swapped(Swapped(s, i, i + 1), i + 1, i) == s
  {
    var t := Swapped(Swapped(s, i, i + 1), i + 1, i);
    assert forall k :: 0 <= k < |s| ==> t[k] == s[k];
  }

  /** Moving a rule to the other tab keeps the rules of both tabs together. */
  lemma MoveAcrossKeepsRules(a: seq<Rule>, b: seq<Rule>, i: nat)
    requires i < |a|
    ensures multiset(EraseAt(a, i)) + multiset(b + [a[i]]) == multiset(a) + multiset(b)
  {
  }

  // ---------------------------------------------------------------------------------------
  // The cursor after a removal

  /** `std::clamp` as the C++ library computes it: defined by the standard only when
    * `lo <= hi`. */
  function Clamp(v: int, lo: int, hi: int): (r: int)
    ensures lo <= hi ==> lo <= r <= hi
    ensures lo <= hi && lo <= v <= hi ==> r == v
  {
    if v < lo then lo else if hi < v then hi else v
  }

  /** The cursor after removing the rule under it from a tab of `count` rules, as written:
    * clamped into `[0, count - 2]`. */
  function RemovedCursorAsWritten(line: int, count: int): int
  {
    Clamp(line, 0, count - 2)
  }

  /** Removing the only rule of a tab clamps with an upper bound below the lower one and
    * leaves the cursor at -1. */
  lemma RemoveLastRuleCursor()
    ensures 0 > 1 - 2 && RemovedCursorAsWritten(0, 1) == -1
  {
  }

  /** The cursor after a removal, with the upper bound never below the lower one. */
  function RemovedCursor(line: int, count: int): (r: int)
    ensures r >= 0
    ensures count >= 2 ==> r <= count - 2
    ensures count >= 2 && 0 <= line <= count - 2 ==> r == line
  {
    Clamp(line, 0, if count >= 2 then count - 2 else 0)
  }

  /** The correction agrees with the code whenever the tab keeps at least one rule. */
  lemma RemovedCursorAgrees(line: int, count: int)
    requires count >= 2
    ensures RemovedCursor(line, count) == RemovedCursorAsWritten(line, count)
  {
  }

  // ---------------------------------------------------------------------------------------
  // The editing session

  /** `user_interface`: the tabs' working copies (`new_rules`), the current tab, the cursor
    * line, the column (pattern or include/exclude) and `bStuffChanged`. */
  class RuleEditor {
    var tabs: seq<seq<Rule>>
    var tab: nat
    var line: int
    var leftColumn: bool
    var changed: bool

    /** One or two tabs; the cursor is on a rule whenever the current tab has any. */
    predicate Valid()
      reads this
    {
      1 <= |tabs| <= 2 && tab < |tabs| && 0 <= line &&
      (tabs[tab] != [] ==> line < |tabs[tab]|)
    }

    /** The window opens on the first tab, first line, pattern column, nothing changed. */
    constructor (lists: seq<seq<Rule>>)
      requires 1 <= |lists| <= 2
      ensures tabs == lists && tab == 0 && line == 0 && leftColumn && !changed
      ensures Valid()
    {
      tabs, tab, line, leftColumn, changed := lists, 0, 0, true, false;
    }

    /** `NEXT_TAB` / `PREV_TAB`: step to the neighbouring tab, wrapping, cursor to the top. */
    method SwitchTab(forward: bool)
      requires Valid()
      modifies this
      ensures Valid()
      ensures tab == (if forward then old(tab) + 1 else old(tab) + |tabs| - 1) % |tabs|
      ensures line == 0
      ensures tabs == old(tabs) && leftColumn == old(leftColumn) && changed == old(changed)
    {
      tab := (if forward then tab + 1 else tab + |tabs| - 1) % |tabs|;
      line := 0;
    }

    /** `REMOVE_RULE`: erase the rule under the cursor and keep the cursor in range. */
    method Remove()
      requires Valid()
      modifies this
      ensures Valid()
      ensures old(tabs[tab]) == [] ==> tabs == old(tabs) && line == old(line) && changed == old(changed)
      ensures old(tabs[tab]) != [] ==>
        && tabs == old(tabs)[old(tab) := EraseAt(old(tabs[tab]), old(line))]
        && line == RemovedCursor(old(line), |old(tabs[tab])|)
        && changed
      ensures tab == old(tab) && leftColumn == old(leftColumn)
    {
      var rules := tabs[tab];
      if rules != [] {
        changed := true;
        tabs := tabs[tab := EraseAt(rules, line)];
        line := RemovedCursor(line, |rules|);
      }
    }

    /** `COPY_RULE`: append a copy of the rule under the cursor and move onto it. */
    method Copy()
      requires Valid()
      modifies this
      ensures Valid()
      ensures old(tabs[tab]) == [] ==> tabs == old(tabs) && line == old(line) && changed == old(changed)
      ensures old(tabs[tab]) != [] ==>
        && tabs == old(tabs)[old(tab) := old(tabs[tab]) + [old(tabs[tab][line])]]
        && line == |old(tabs[tab])|
        && changed
      ensures tab == old(tab) && leftColumn == old(leftColumn)
    {
      var rules := tabs[tab];
      if rules != [] {
        changed := true;
        tabs := tabs[tab := rules + [rules[line]]];
        line := |rules|;
      }
    }

    /** `SWAP_RULE_GLOBAL_CHAR`, offered only with two tabs: move the rule under the cursor
      * to the end of the other tab, and follow it there. */
    method MoveToOtherTab()
      requires Valid()
      modifies this
      ensures Valid()
      ensures |tabs| == |old(tabs)| && leftColumn == old(leftColumn)
      ensures |tabs| != 2 || old(tabs[tab]) == [] ==>
        tabs == old(tabs) && tab == old(tab) && line == old(line) && changed == old(changed)
      ensures |tabs| == 2 && old(tabs[tab]) != [] ==>
        && tab == 1 - old(tab)
        && tabs[old(tab)] == EraseAt(old(tabs[tab]), old(line))
        && tabs[tab] == old(tabs)[tab] + [old(tabs[tab][line])]
        && line == |tabs[tab]| - 1
        && changed
    {
      var rules := tabs[tab];
      if |tabs| == 2 && rules != [] {
        var other := (tab + 1) % 2;
        changed := true;
        var moved := tabs[other] + [rules[line]];
        tabs := tabs[other := moved][tab := EraseAt(rules, line)];
        tab := other;
        line := |moved| - 1;
      }
    }

    /** `ADD_RULE`: append an active include rule with the pattern the player typed
      * (`input`, already trimmed); an empty answer takes the new rule back out. */
    method Add(input: string)
      requires Valid()
      modifies this
      ensures Valid()
      ensures input == [] ==> tabs == old(tabs) && line == old(line) && changed == old(changed)
      ensures input != [] ==>
        && tabs == old(tabs)[old(tab) := old(tabs[tab]) + [Rule(input, true, false)]]
        && line == |old(tabs[tab])|
        && changed
      ensures tab == old(tab) && leftColumn == old(leftColumn)
    {
      var oldLine := line;
      var before := tabs[tab];
      var rules := before + [Rule([], true, false)];
      tabs := tabs[tab := rules];
      line := |rules| - 1;
      if input != [] {
        assert rules[line := Rule(input, true, false)] == before + [Rule(input, true, false)];
        tabs := tabs[tab := rules[line := Rule(input, true, false)]];
        changed := true;
      } else {
        tabs := tabs[tab := rules[..|rules| - 1]];
        line := oldLine;
      }
    }

    /** `CONFIRM` on a rule: in the pattern column, replace the pattern by a non-empty
      * answer; in the other column, flip include/exclude. */
    method Confirm(input: string)
      requires Valid()
      modifies this
      ensures Valid()
      ensures var rules := old(tabs[tab]);
        if rules == [] || (leftColumn && input == []) then
          tabs == old(tabs) && changed == old(changed)
        else if leftColumn then
          tabs == old(tabs)[old(tab) := rules[old(line) := rules[old(line)].(pattern := input)]] && changed
        else
          tabs == old(tabs)[old(tab) := rules[old(line) := rules[old(line)].(exclude := !rules[old(line)].exclude)]] &&
          changed
      ensures tab == old(tab) && line == old(line) && leftColumn == old(leftColumn)
    {
      var rules := tabs[tab];
      if rules != [] {
        if leftColumn {
          if input != [] {
            tabs := tabs[tab := rules[line := rules[line].(pattern := input)]];
            changed := true;
          }
        } else {
          changed := true;
          tabs := tabs[tab := rules[line := rules[line].(exclude := !rules[line].exclude)]];
        }
      }
    }

    /** `ENABLE_RULE` / `DISABLE_RULE`: set the active flag of the rule under the cursor. */
    method SetActive(active: bool)
      requires Valid()
      modifies this
      ensures Valid()
      ensures var rules := old(tabs[tab]);
        if rules == [] then tabs == old(tabs) && changed == old(changed)
        else tabs == old(tabs)[old(tab) := rules[old(line) := rules[old(line)].(active := active)]] && changed
      ensures tab == old(tab) && line == old(line) && leftColumn == old(leftColumn)
    {
      var rules := tabs[tab];
      if rules != [] {
        changed := true;
        tabs := tabs[tab := rules[line := rules[line].(active := active)]];
      }
    }

    /** `LEFT` / `RIGHT`: switch between the pattern and the include/exclude column. */
    method SwitchColumn()
      requires Valid()
      modifies this
      ensures Valid()
      ensures leftColumn == !old(leftColumn)
      ensures tabs == old(tabs) && tab == old(tab) && line == old(line) && changed == old(changed)
    {
      leftColumn := !leftColumn;
    }

    /** `MOVE_RULE_UP`: swap the rule under the cursor with the one at the next index and
      * follow it; on the last rule nothing moves, but the list still counts as changed. */
    method MoveUp()
      requires Valid()
      modifies this
      ensures Valid()
      ensures var rules := old(tabs[tab]);
        if rules == [] then tabs == old(tabs) && line == old(line) && changed == old(changed)
        else if old(line) < |rules| - 1 then
          tabs == old(tabs)[old(tab) := Swapped(rules, old(line), old(line) + 1)] &&
          line == old(line) + 1 && changed
        else tabs == old(tabs) && line == old(line) && changed
      ensures tab == old(tab) && leftColumn == old(leftColumn)
    {
      var rules := tabs[tab];
      if rules != [] {
        changed := true;
        if line < |rules| - 1 {
          tabs := tabs[tab := Swapped(rules, line, line + 1)];
          line := line + 1;
        }
      }
    }

    /** `MOVE_RULE_DOWN`: swap the rule under the cursor with the one at the previous index
      * and follow it; on the first rule nothing moves, but the list still counts as changed. */
    method MoveDown()
      requires Valid()
      modifies this
      ensures Valid()
      ensures var rules := old(tabs[tab]);
        if rules == [] then tabs == old(tabs) && line == old(line) && changed == old(changed)
        else if old(line) > 0 then
          tabs == old(tabs)[old(tab) := Swapped(rules, old(line), old(line) - 1)] &&
          line == old(line) - 1 && changed
        else tabs == old(tabs) && line == old(line) && changed
      ensures tab == old(tab) && leftColumn == old(leftColumn)
    {
      var rules := tabs[tab];
      if rules != [] {
        changed := true;
        if line > 0 {
          tabs := tabs[tab := Swapped(rules, line, line - 1)];
          line := line - 1;
        }
      }
    }
  }

  /** The end of `player_settings::show`: the edited copies replace the lists only if
    * something changed and the player confirmed saving; the cache is invalidated whenever
    * something changed, confirmed or not. */
  method CommitEdits(s: PlayerSettings, ed: RuleEditor, confirmed: bool)
    requires ed.Valid()
    modifies s, s.cache
    ensures ed.changed && confirmed ==>
      s.globalRules == ed.tabs[0] &&
      s.characterRules == (if |ed.tabs| == 2 then ed.tabs[1] else old(s.characterRules))
    ensures !(ed.changed && confirmed) ==>
      s.globalRules == old(s.globalRules) && s.characterRules == old(s.characterRules)
    ensures s.cache.ready == (old(s.cache.ready) && !ed.changed)
    ensures s.cache.items == old(s.cache.items) && s.cache.tempItems == old(s.cache.tempItems)
  {
    if !ed.changed {
      return;
    }
    if confirmed {
      s.globalRules := ed.tabs[0];
      if |ed.tabs| == 2 {
        s.characterRules := ed.tabs[1];
      }
    }
    s.Invalidate();
  }

  /** The end of `npc_settings::show`: one tab, the NPC's list; the edited copy replaces it
    * only if something changed and the player confirmed, and the cache is invalidated
    * whenever something changed. */
  method CommitNpcEdits(s: NpcSettings, ed: RuleEditor, confirmed: bool)
    requires ed.Valid() && |ed.tabs| == 1
    modifies s, s.cache
    ensures s.rules == if ed.changed && confirmed then ed.tabs[0] else old(s.rules)
    ensures s.cache.ready == (old(s.cache.ready) && !ed.changed)
    ensures s.cache.items == old(s.cache.items) && s.cache.tempItems == old(s.cache.tempItems)
  {
    if !ed.changed {
      return;
    }
    if confirmed {
      s.rules := ed.tabs[0];
    }
    s.cache.Invalidate();
  }
}
