# Auto-pickup engine of Cataclysm-DDA, modelled in Dafny

This project models auto-pickup in Cataclysm: Dark Days Ahead (`src/auto_pickup.cpp`). A
player writes wildcard rules (`wooden ar*`, `*arrow`) or material filters (`m:kevlar`,
`M:copper`). Each rule is active or not, and it includes or excludes the items it matches.
The model has three layers.

1. **Rule matching** (`matching.dfy`, module `Matching`).
   - The `*` wildcard match, which ignores case.
   - The case-insensitive substring search.
   - Comma splitting.
   - `check_special_rule` for `m:` ("some material matches some filter") and `M:` ("every
     material matches some filter").
   - The helpers whose code is not in the file (`wildcard_match`, `lcmatch`,
     `ci_find_substr`, `string_split`) get small reference definitions. They follow the
     manager's help text: `*` is the only wildcard and matching ignores case.
2. **Rule lists and the classification cache** (`rules.dfy`, `classification.dfy`,
   `settings.dfy`).
   - A cache (class `Classification.Cache`) holds `map_items` (item name to
     whitelisted/blacklisted), the `temp_items` side table and the `ready` flag.
   - It is rebuilt from the rule lists: global before character for a player, one list for
     an NPC.
   - It is filled in on demand for a single item by `create_rule`.
   - The settings classes own their lists as sequence fields and their cache as an object.
   - Rule persistence is modelled at the record level.
   - The rule editor's list edits are in `editor.dfy`.
3. **The pickup decision engine** (`items.dfy`, `pickup.dfy`).
   - Items form a finite tree; a location is a path of indices from the tile stack down
     through container contents.
   - `within_autopickup_limits` is the predicate `Items.WithinLimits`. It changes nothing;
     the methods call it, and lemmas state how it depends on the two limits.
   - `get_autopickup_rule`, `empty_autopickup_target`, the recursive
     `get_autopickup_items` and `select_items` are methods. They update the cache and the
     tile's item stack, and they are proved against specification functions.

Each step-by-step operation is a method on the object it changes, proved against a function
that says what the step computes. The properties the file's comments and code promise are
lemmas about those functions.

## Model

| member | source | states |
|---|---|---|
| Matching.SpecialRule | src/auto_pickup.cpp:737-768 | a material filter can hold only when the rule has the form `<c>:<list>`, the list is non-empty, the item has materials, and the type character is `m` or `M`; any other type character gives false |
| Matching.AllOfImpliesAnyOf | src/auto_pickup.cpp:750-765 | whenever `M:<list>` matches an item, `m:<list>` matches it too |
| Matching.SingleMaterialAgrees | src/auto_pickup.cpp:750-765 | on an item of one material, `m:<list>` and `M:<list>` select the same |
| Matching.AnyOfGrowsWithMaterials | src/auto_pickup.cpp:750-756 | an item matching `m:<list>` still matches it when it is made of more materials |
| Matching.AllOfShrinksWithMaterials | src/auto_pickup.cpp:758-764 | an item matching `M:<list>` still matches it when some of its materials are dropped, as long as one is left |
| Matching.StarMatchesAll | src/auto_pickup.cpp:497-508 | the pattern `*` matches every name |
| Matching.StarSuffix | src/auto_pickup.cpp:501 | `*rrow` matches every name ending in `rrow` |
| Matching.StarPrefix | src/auto_pickup.cpp:500 | `wooden ar*` matches every name starting with `wooden ar` |
| Matching.LiteralPattern | src/auto_pickup.cpp:499 | a pattern without `*` matches exactly the names equal to it ignoring case |
| Matching.GlobIgnoresTextCase | src/auto_pickup.cpp:503 | matching a name and matching its lower-cased form agree |
| Matching.SelfMatch | src/auto_pickup.cpp:706-709 | every non-empty name matches itself as a pattern |
| Matching.EqualLengthContains | src/auto_pickup.cpp:699 | the same-length substring test is case-insensitive equality, both directions |
| Matching.SplitAtFirstDelimiter | src/auto_pickup.cpp:743 | the first piece of a split runs up to the first comma, and the rest splits the same way |
| Matching.SplitWithoutDelimiter | src/auto_pickup.cpp:743 | a list without a comma is one filter |
| Matching.PureCopperAllOf | src/auto_pickup.cpp:506 | an item made only of copper matches `M:copper` |
| Matching.CopperTinNotAllOf | src/auto_pickup.cpp:506 | an item made of copper and tin does not match `M:copper` |
| Matching.CopperAnyOf | src/auto_pickup.cpp:507 | an item made of copper matches a two-material list `m:steel,copper` |
| Rules.StateOf | src/auto_pickup.cpp:783 | a matching rule writes a definite state, and blacklisted exactly when it is an exclude rule |
| Rules.Deserialize | src/auto_pickup.cpp:953-963 | the list read from records serializes back to exactly those records |
| Rules.SerializeInjective | src/auto_pickup.cpp:929-945 | two lists with the same records are equal; with `Deserialize` a save and a load give back the list |
| Rules.Serialize | src/auto_pickup.cpp:929-945 | one record per rule, in order, with the rule's pattern and flags |
| Rules.SameNameRuleIsCaseInsensitiveEquality | src/auto_pickup.cpp:699 | the `has_rule`/`remove_rule` test is equality ignoring case |
| Rules.FirstSameName | src/auto_pickup.cpp:721-729 | the index found is a same-name rule and no earlier rule is one |
| Items.DisabledLimit | src/auto_pickup.cpp:64-75 | `WithinLimits`: no-drop and zero-weight items are never within the limits; a limit of zero or less behaves as 0, whatever the other limit is; with both off only the zero-weight and no-drop flags decide |
| Items.RaisedLimit | src/auto_pickup.cpp:64-75 | `WithinLimits`: raising positive limits never excludes an item that was within them |
| Items.SwitchedOffLimit | src/auto_pickup.cpp:64-75 | `WithinLimits`: switching either limit off never excludes an item |
| Items.SelectPartition | src/auto_pickup.cpp:108-120 | the entries kept and the entries taken out are together the original entries |
| Items.SelectMembers | src/auto_pickup.cpp:108-120 | an entry is selected iff its flag is set |
| Items.SelectLighter | src/auto_pickup.cpp:116-118 | taking entries out never makes a container heavier or bulkier |
| Items.RemovalKeepsLimits | src/auto_pickup.cpp:181-183 | a container within the limits stays within them after entries are taken out |
| Classification.ExcludePass | src/auto_pickup.cpp:838-849 | an exclude rule keeps exactly the names already in the map |
| Classification.ApplyRule | src/auto_pickup.cpp:822-851 | applying one rule keeps every mapped name's representative present |
| Classification.IncludePassSpec | src/auto_pickup.cpp:826-836 | an include rule whitelists every matching catalog name, records a matching catalog entry as its representative, and changes nothing else |
| Classification.ApplyRuleSpec | src/auto_pickup.cpp:822-851 | empty and inactive rules change nothing; exclude rules keep the keys and can only blacklist; include rules can only whitelist; representatives stay catalog entries of their own name |
| Classification.ApplyRulesFromCatalog | src/auto_pickup.cpp:820-852 | representatives stay catalog entries through a whole list |
| Classification.ApplyRulesAppend | src/auto_pickup.cpp:820-852 | applying a concatenation of lists is applying them one after the other |
| Classification.TwoListsAreOneList | src/auto_pickup.cpp:811-818 | the player's rebuild is the global list followed by the character list, as one list, so later rules overwrite earlier ones |
| Classification.IncludeSurvives | src/auto_pickup.cpp:820-852 | a name whitelisted by an include rule stays whitelisted unless a later active exclude rule can hit it |
| Classification.ExcludeSurvives | src/auto_pickup.cpp:820-852 | a mapped name that an active exclude rule hits, by its name or by its representative's materials, ends blacklisted unless a later active include rule matches a catalog entry of that name |
| Classification.ExcludeOnlyNarrows | src/auto_pickup.cpp:838-849 | an exclude rule never adds a name and never whitelists one |
| Classification.ExcludeMisses | src/auto_pickup.cpp:840-849 | an exclude rule that cannot hit a name leaves its entry unchanged |
| Classification.WhitelistKept | src/auto_pickup.cpp:820-852 | one more rule that is not an exclude able to hit the name keeps it whitelisted |
| Classification.IncludeMisses | src/auto_pickup.cpp:820-852 | one more rule that is not an include matching the name keeps it blacklisted |
| Classification.ArrowExample | src/auto_pickup.cpp:820-852 | with catalog entries "wooden arrow" and "steel arrow", `*arrow` then exclude `steel*` whitelists the wooden arrow and blacklists the steel arrow |
| Classification.ArrowInclude | src/auto_pickup.cpp:826-836 | `*arrow` whitelists both arrows, each as its own representative |
| Classification.ArrowExclude | src/auto_pickup.cpp:838-849 | exclude `steel*` then blacklists only the steel arrow |
| Classification.Lookup | src/auto_pickup.cpp:859-865 | an absent name has no rule; a present one gives its entry |
| Classification.LastMatchDecides | src/auto_pickup.cpp:794-809 | in `create_rule`, the last active matching rule decides the item's entry |
| Classification.NoMatchKeeps | src/auto_pickup.cpp:794-809 | with no active matching rule, `create_rule` leaves the map unchanged |
| Classification.CreateRuleTouchesOnlyName | src/auto_pickup.cpp:794-809 | `create_rule` changes no entry but the item's own |
| Classification.CreateRuleOverwritten | src/auto_pickup.cpp:794-809 | once the item's entry is overwritten, the rules' writes no longer matter |
| Classification.CreateRuleAppend | src/auto_pickup.cpp:787-792 | creating from the global list and then the character list is creating from their concatenation |
| Classification.Cache.ApplyRuleList | src/auto_pickup.cpp:820-852 | the loop over a list leaves the cache as applying the list says |
| Classification.Cache.IncludeScan | src/auto_pickup.cpp:826-836 | the catalog scan of an include rule computes the include pass |
| Classification.Cache.ExcludeScan | src/auto_pickup.cpp:838-849 | the scan over the existing keys computes the exclude pass; every key keeps a representative throughout, and the side table is unchanged |
| Classification.Cache.RefreshMapItems | src/auto_pickup.cpp:811-818 | the lists are applied in order |
| Classification.Cache.Recreate | src/auto_pickup.cpp:998-1005 | the map becomes the rebuild from scratch, `ready` is set, the side table is empty |
| Classification.Cache.Invalidate | src/auto_pickup.cpp:1007-1010 | only `ready` changes, to false |
| Classification.Cache.CheckItem | src/auto_pickup.cpp:854-866 | a stale cache is rebuilt first; the cache is then ready and the answer is the lookup |
| Classification.Cache.CreateRuleForName | src/auto_pickup.cpp:776-785 | wildcard rules against the name only give `create_rule` with no materials |
| Classification.Cache.CreateRuleForItem | src/auto_pickup.cpp:794-809 | the loop computes `create_rule` with the item's materials |
| Settings.PlayerSettings.RefreshMapItems | src/auto_pickup.cpp:811-818 | global rules, then character rules |
| Settings.PlayerSettings.Recreate | src/auto_pickup.cpp:998-1005 | the player's cache becomes the rebuild of both lists |
| Settings.PlayerSettings.CheckItem | src/auto_pickup.cpp:854-866 | the answer is the lookup in the cache as refreshed, and the cache is ready |
| Settings.PlayerSettings.Invalidate | src/auto_pickup.cpp:1007-1010 | only `ready` changes |
| Settings.PlayerSettings.CreateRule | src/auto_pickup.cpp:787-792 | on-demand classification over the global list and then the character list |
| Settings.PlayerSettings.AddRule | src/auto_pickup.cpp:706-709 | appends `(name, active, !include)` to the character list, classifies the item, and does not invalidate |
| Settings.PlayerSettings.HasRule | src/auto_pickup.cpp:695-704 | true iff some character rule equals the name ignoring case |
| Settings.PlayerSettings.RemoveRule | src/auto_pickup.cpp:718-730 | erases only the first same-name rule, and invalidates only when it erased one |
| Settings.PlayerSettings.Empty | src/auto_pickup.cpp:732-735 | true exactly when the player has no rule in either list |
| Settings.PlayerSettings.ClearCharacterRules | src/auto_pickup.cpp:868-872 | the character list becomes empty and the cache is invalidated |
| Settings.NpcSettings.RefreshMapItems | src/auto_pickup.cpp:988-991 | the NPC's one list |
| Settings.NpcSettings.CheckItem | src/auto_pickup.cpp:854-866 | the lookup in the NPC's refreshed cache; a rebuild empties the side table, a ready cache keeps it |
| Settings.NpcSettings.CreateRule | src/auto_pickup.cpp:771-774 | harvest classification uses wildcard rules only |
| Settings.NpcSettings.Empty | src/auto_pickup.cpp:993-996 | true exactly when the NPC has no rule |
| Settings.AddedRuleDecides | src/auto_pickup.cpp:706-709 | a rule just added for an item decides that item, whatever the earlier rules say |
| Settings.AddedRuleIsFound | src/auto_pickup.cpp:695-709 | a rule added for a name is found by `has_rule` under that name |
| Settings.HasRuleIgnoresCase | src/auto_pickup.cpp:695-704 | `has_rule` is "some rule equals the name ignoring case" |
| Settings.RemovalTakesOne | src/auto_pickup.cpp:718-730 | a removal lowers the count of same-name rules by exactly one |
| Settings.EraseCount | src/auto_pickup.cpp:726 | erasing one rule lowers the count exactly when that rule has the name |
| Settings.NoRulesNoEntries | src/auto_pickup.cpp:811-852 | with no rules a rebuild classifies nothing |
| Pickup.CreateRuleKeepsDefinite | src/auto_pickup.cpp:794-809 | `create_rule` writes only whitelisted or blacklisted entries |
| Pickup.Verdict | src/auto_pickup.cpp:81-99 | blacklisted iff already blacklisted; whitelisted iff already whitelisted or whitelisted on demand; an on-demand blacklisting is reported as no rule |
| Pickup.AutopickupRule | src/auto_pickup.cpp:81-99 | the cache ends ready; the answer is blacklisted iff the first lookup, after rebuilding a stale cache, finds a blacklisting, and whitelisted iff the item's entry afterwards is whitelisted; a name the first lookup knows is not classified again |
| Pickup.AskKnown | src/auto_pickup.cpp:81-87 | a ready cache that knows the name answers from its entry and does not change |
| Pickup.AskExtends | src/auto_pickup.cpp:81-99 | a query keeps every entry of a ready cache and writes only definite entries |
| Pickup.OnDemandVerdict | src/auto_pickup.cpp:88-96 | for a name the first lookup does not know, the last active matching rule of the global-then-character lists decides the stored entry, and only an include rule gives whitelisted |
| Pickup.OnDemandNoMatch | src/auto_pickup.cpp:88-98 | for an unknown name with no matching rule the map is left as looked up and the answer is no rule |
| Pickup.GetAutopickupRule | src/auto_pickup.cpp:81-99 | the answer and the new cache state are those `AutopickupRule` gives from the old cache state |
| Pickup.KeptEntries | src/auto_pickup.cpp:108-120 | a rigid container keeps exactly the entries not blacklisted; a non-rigid one exactly the whitelisted ones |
| Pickup.EmptiedSelects | src/auto_pickup.cpp:108-120 | the container keeps the entries its test keeps and drops the others, both in their original order, from one answer per entry |
| Pickup.EmptiedExtends | src/auto_pickup.cpp:108-120 | emptying a container keeps every entry of a ready cache |
| Pickup.EmptiedFromKnownNames | src/auto_pickup.cpp:108-120 | from a ready cache that knows every entry's name, the answers are the cached entries and the cache does not change |
| Pickup.EmptyTargetIsPermutation | src/auto_pickup.cpp:108-120 | kept plus dropped entries are a permutation of the original contents |
| Pickup.EmptyAutopickupTarget | src/auto_pickup.cpp:108-120 | the container keeps exactly what `EmptiedTarget` keeps, the dropped entries are appended to the tile in order, and the cache ends as `EmptiedTarget` says |
| Pickup.SortEntries | src/auto_pickup.cpp:110-119 | the loop computes `EmptiedTarget` over the entries: kept entries, drops appended to the tile, cache state |
| Pickup.DropsEntry | src/auto_pickup.cpp:112-115 | an entry is dropped exactly when the container's test rejects its answer; the cache ends as the query says |
| Pickup.PickedInEntry | src/auto_pickup.cpp:192-203 | a selection made inside an entry lies inside the container |
| Pickup.EntryPass | src/auto_pickup.cpp:172-207 | an entry outside the limits is skipped, not asked about and clears `pick_all_items`; the entry changes only in its contents; every selection lies inside the entry, is within the limits and is no bare liquid |
| Pickup.WhitelistedPass | src/auto_pickup.cpp:178-191 | a whitelisted entry keeps `pick_all_items`; a forced container adds nothing; a bare liquid ends the loop and adds nothing; anything else is added as updated |
| Pickup.UnlistedPass | src/auto_pickup.cpp:192-207 | the answer is the rule's, the loop goes on, a forced container adds nothing, and every selection from a nested container lies inside it and is no bare liquid |
| Pickup.KnownPass | src/auto_pickup.cpp:172-177 | from a ready cache that knows the entry's name, the answer is the cached entry, or no rule outside the limits |
| Pickup.PassExtends | src/auto_pickup.cpp:172-207 | one entry never loses an entry of a ready cache |
| Pickup.EntryLoop | src/auto_pickup.cpp:171-208 | answers and selections only grow, entries already visited stay as updated, a forced container adds nothing more, and the loop visits every entry unless it is forced |
| Pickup.LoopUnfold | src/auto_pickup.cpp:171-208 | one step of the loop: the break leaves the container forced; otherwise the loop goes on from the next entry |
| Pickup.LoopSelects | src/auto_pickup.cpp:178-191 | while the container is not forced, every whitelisted entry that is not a bare liquid is selected, as updated |
| Pickup.LoopKnown | src/auto_pickup.cpp:171-208 | from a ready cache, every visited entry whose name it knows gets the cached answer, or no rule outside the limits |
| Pickup.LoopExtends | src/auto_pickup.cpp:171-208 | the loop never loses an entry of a ready cache |
| Pickup.AutopickupItems | src/auto_pickup.cpp:151-241 | the container changes only in its contents and keeps their number; every selection is within the limits and is either the container itself, alone, or lies inside it and is no bare liquid |
| Pickup.ItemsWalk | src/auto_pickup.cpp:151-170 | an owned container with the option off gives nothing, is not asked about and leaves the cache; otherwise the walk is the entry loop from the initial state; an empty container gives nothing |
| Pickup.ItemsShape | src/auto_pickup.cpp:151-241 | the result is empty, the selections from inside, or the container alone; a sealed container is never opened |
| Pickup.ItemsDecision | src/auto_pickup.cpp:209-239 | the container is asked about iff it has contents and everything was approved or it is forced; a blacklisted container hands over its inside selections; the container is selected iff it is not blacklisted, something was whitelisted, it is not a non-whitelisted corpse, it is within the limits, and it is not a powered tool whose selections are all batteries |
| Pickup.ItemsExtends | src/auto_pickup.cpp:151-241 | a search never loses an entry of a ready cache |
| Pickup.GetAutopickupItems | src/auto_pickup.cpp:151-241 | the selections and the updated container are those of `AutopickupItems`; its drops are appended to the tile and the cache ends as it says |
| Pickup.ScanEntries | src/auto_pickup.cpp:171-208 | the loop computes `EntryLoop` from the initial state: selections, updated entries, `pick_all_items`, `force_pick_container`, `any_whitelisted`, drops and cache |
| Pickup.VisitEntry | src/auto_pickup.cpp:172-207 | one entry computes `EntryPass`: additions, updated entry, whitelisting, break, `pick_all_items`, drops and cache |
| Pickup.DecideContainer | src/auto_pickup.cpp:209-239 | the result is `ContainerDecision` with the container's own answer; the cache ends as the query says |
| Pickup.PickedAtTop | src/auto_pickup.cpp:284-290 | a selection from tile entry `i` has `i` as the first index of its path |
| Pickup.NestedAtTop | src/auto_pickup.cpp:284-290 | what a searched tile entry gives lies under it, is within the limits and holds no bare liquid |
| Pickup.TileEntryPass | src/auto_pickup.cpp:258-291 | an owned entry (option off) or a spilt liquid is left alone and not asked about; otherwise the answer is the rule's; a whitelisted entry is picked iff it is within the limits after emptying; every selection lies under the entry, is within the limits and is no bare liquid |
| Pickup.TileWhitelisted | src/auto_pickup.cpp:273-283 | the entry, emptied when it is a container, is picked exactly when it is then within the limits |
| Pickup.TileUnlisted | src/auto_pickup.cpp:284-290 | the answer is carried over, and what a search gives lies under the entry, is within the limits and holds no bare liquid |
| Pickup.TileExtends | src/auto_pickup.cpp:258-291 | one tile entry never loses an entry of a ready cache |
| Pickup.SelectedEntries | src/auto_pickup.cpp:251-293 | tile entries change only in their contents; skipped entries are unchanged and get no rule |
| Pickup.SelectedPicks | src/auto_pickup.cpp:251-293 | every selection lies under a tile entry that is not skipped, is within the limits and is no bare liquid; every whitelisted entry within the limits after emptying is selected |
| Pickup.SelectedExtends | src/auto_pickup.cpp:251-293 | the walk over the tile never loses an entry of a ready cache |
| Pickup.SelectedKnown | src/auto_pickup.cpp:251-293 | from a ready cache, every entry not skipped whose name it knows gets the cached answer |
| Pickup.WithCountAppend | src/auto_pickup.cpp:283-289 | pairing two runs of selections with quantity 0 is pairing each in turn |
| Pickup.AppendWithCount | src/auto_pickup.cpp:286-289 | each nested selection is appended with quantity 0, in order |
| Pickup.SelectItems | src/auto_pickup.cpp:251-293 | the result is `SelectedItems`'s selections, each with quantity 0; the tile holds the updated entries followed by the drops; the cache ends as the function says |
| Pickup.SelectEntry | src/auto_pickup.cpp:258-291 | one tile entry computes `TileEntryPass`: selections, updated entry, drops and cache |
| Editor.Swapped | src/auto_pickup.cpp:537 | the two entries trade places and nothing else moves |
| Editor.SwappedIsPermutation | src/auto_pickup.cpp:534-545 | moving a rule up or down reorders the list and loses nothing |
| Editor.MoveUpThenDown | src/auto_pickup.cpp:534-545 | moving a rule up and back down restores the list |
| Editor.MoveAcrossKeepsRules | src/auto_pickup.cpp:475-484 | moving a rule to the other tab keeps the rules of both tabs together |
| Editor.Clamp | src/auto_pickup.cpp:470 | with `lo <= hi` the result lies in `[lo, hi]` and is the value itself when that does |
| Editor.RemoveLastRuleCursor | src/auto_pickup.cpp:466-470 | removing the only rule of a tab clamps with bounds 0 and -1 and gives cursor -1 |
| Editor.RemovedCursor | src/auto_pickup.cpp:466-470 | the cursor after a removal is never negative, is in range when a rule is left, and stays put when it already was |
| Editor.RemovedCursorAgrees | src/auto_pickup.cpp:470 | the corrected cursor equals the code's whenever at least one rule is left |
| Editor.RuleEditor.constructor | src/auto_pickup.cpp:327-332 | first tab, first line, pattern column, nothing changed |
| Editor.RuleEditor.SwitchTab | src/auto_pickup.cpp:460-462 | steps to the neighbouring tab and puts the cursor on the first line |
| Editor.RuleEditor.Remove | src/auto_pickup.cpp:466-470 | erases the rule under the cursor and keeps the cursor valid |
| Editor.RuleEditor.Copy | src/auto_pickup.cpp:471-474 | appends a copy of the rule under the cursor and moves onto it |
| Editor.RuleEditor.MoveToOtherTab | src/auto_pickup.cpp:475-484 | moves the rule under the cursor to the end of the other tab and follows it |
| Editor.RuleEditor.Add | src/auto_pickup.cpp:485-521 | a non-empty answer appends an active include rule with that pattern; an empty one leaves everything as it was |
| Editor.RuleEditor.Confirm | src/auto_pickup.cpp:485-525 | replaces the pattern by a non-empty answer, or flips include/exclude in the other column |
| Editor.RuleEditor.SetActive | src/auto_pickup.cpp:526-531 | sets the active flag of the rule under the cursor and nothing else |
| Editor.RuleEditor.SwitchColumn | src/auto_pickup.cpp:532-533 | only the column changes |
| Editor.RuleEditor.MoveUp | src/auto_pickup.cpp:534-539 | swaps with the next index when there is one; the edit counts as a change either way |
| Editor.RuleEditor.MoveDown | src/auto_pickup.cpp:540-545 | swaps with the previous index when there is one; the edit counts as a change either way |
| Editor.CommitEdits | src/auto_pickup.cpp:554-588 | the lists are replaced only when something changed and saving was confirmed; the cache is invalidated whenever something changed |
| Editor.CommitNpcEdits | src/auto_pickup.cpp:965-976 | the same for the NPC's one list |

## Left out

- Rendering, key handling and navigation of the manager window are not modelled. This covers
  `navigate_ui_list`, the `TEST_RULE` window, the option toggle, and the `query_yn` in
  `add_rule`. The text prompt's answer is a parameter, already trimmed; `wildcard_trim_rule`
  is not part of this model.
- Editor.RuleEditor.SwitchTab: `inc_clamp_wrap` is not part of this model. The step is taken
  to wrap around.
- Editor.RuleEditor.Remove: uses the corrected cursor (see Findings), not the code's clamp.
- Saving and loading the rule files is file I/O and is left out. Only the record sequence
  that `serialize`/`deserialize` exchange is modelled.
- The game options, the map, the player character and the settings singleton are
  parameters. The options are `Items.Options`, the tile is `Pickup.Tile`, and the settings
  object is passed in.
- The item catalog is a sequence of (singular name, material names) entries. `tname`,
  `nname` and material names are given as fields, not computed.
- Settings.PlayerSettings.HasRule: takes the name as a parameter. The code compares
  `tname(1)`, which may carry a prefix that `tname(1, false)` (used by add and remove)
  does not.
- Materials are a set of names. Two material ids with the same name count once.
- Case folding is ASCII only.
- Matching.WildcardMatch: an empty pattern matches nothing. `refresh_map_items` skips empty
  rules. `create_rule` does not skip them, and there it relies on this choice.
- Matching.SpecialRule: a rule shorter than two characters is not special. The code reads
  `rule[1]` without a length check.
- Item weight and volume come from item code that is not part of this model. Weight
  includes the contents. Volume includes them unless every pocket is rigid.
  `is_container_empty`/`empty_container` are "no contents". One `liquid` flag stands for
  both `made_of(LIQUID)` and `made_of_from_type(LIQUID)`.
- Limits are unbounded integers. `limit * 50` cannot overflow here as `int` arithmetic could
  in the code.
- Pickup.EmptyAutopickupTarget: dropped entries are appended to the one tile's stack.
  Stacking, overflow to neighbouring tiles and the tile coordinates of `map::add_item` are
  not modelled.
- The rule queries of one pickup read the settings, which do not change during pickup:
  `Pickup.Env` holds the global-then-character list and the map a rebuild gives. The
  cache the queries update is `Pickup.Memo`, threaded through the specification functions
  in the order the code makes its queries.
- A location is a path of indices plus a snapshot of the item when it was selected. The
  item at a location is not re-read after later edits of the tree.
- `select_items` walks the tile's stack as it was on entry. Drops appended during the walk
  are not visited.
- The constructors of `Classification.Cache`, `Settings.PlayerSettings`,
  `Settings.NpcSettings` and `Pickup.Tile` only set up the model's objects. They have no
  counterpart in the code and no row in the table.
- `player_settings::show`/`npc_settings::show` are modelled only as their commit steps.
- The mutation tests in `tests/mutation_test.cpp` drive another subsystem and are not part
  of this model.

## Findings

| source | as written | input that shows it | evidently intended | confidence | as-written member | corrected member |
|---|---|---|---|---|---|---|
| src/auto_pickup.cpp:466-470 | after `REMOVE_RULE` the cursor is `std::clamp(iLine, 0, recmax - 2)` | a tab with one rule: the bounds are 0 and -1, which breaks `std::clamp`'s requirement that the lower bound not exceed the upper one; the library's formula yields cursor -1 | the cursor stays at 0 when the tab becomes empty | not executed; medium (the empty tab then guards the edit actions, so only navigation sees the -1) | Editor.RemovedCursorAsWritten, Editor.RemoveLastRuleCursor | Editor.RemovedCursor, Editor.RuleEditor.Remove |
