/**
 * The pickup decision engine: what auto-pickup selects from one map tile, descending into
 * containers, and which entries it drops out of the containers it selects.
 *
 * A location is the path of indices from the tile (its first index) down through container
 * contents, with the item as it is when selected. Dropped entries land on the same tile.
 *
 * Every rule query may rebuild or extend the player's cache, so each operation is specified
 * by a function that threads the cache state (`Memo`) through its queries in the order the
 * code makes them; the methods are proved to compute exactly that function.
 */
module Pickup {
  import opened Rules
  import opened Items
  import opened Classification
  import opened Settings

  /** `item_location`: where an item is, and the item. */
  datatype Location = Location(path: seq<nat>, item: Item)

  /** The item stack of the map tile being looked at. */
  class Tile {
    var items: seq<Item>

    constructor (initial: seq<Item>)
      ensures items == initial
    {
      items := initial;
    }
  }

  // ---------------------------------------------------------------------------------------
  // The cache as the pickup code sees it

  /** The player's cache: the `ready` flag, `map_items` and `temp_items`. */
  datatype Memo = Memo(ready: bool, items: map<string, RuleState>, temps: map<string, ItemType>)

  /** What pickup reads from the player's settings, which do not change during pickup:
    * `rules` is the global list followed by the character list, the order in which
    * `create_rule` consults them, and `rebuilt` the map a rebuild of the cache from the two
    * lists and the item catalog gives. */
  datatype Env = Env(rules: seq<Rule>, rebuilt: map<string, RuleState>)

  function MemoOf(c: Cache): Memo
    reads c
  {
    Memo(c.ready, c.items, c.tempItems)
  }

  function EnvOf(s: PlayerSettings, catalog: seq<ItemType>): Env
    reads s
  {
    Env(s.globalRules + s.characterRules, Rebuild(s.Lists(), catalog))
  }

  /** The map the first lookup of a query sees: a stale cache is rebuilt first. */
  function Seen(env: Env, m: Memo): map<string, RuleState>
  {
    if m.ready then m.items else env.rebuilt
  }

  /** Every entry of the map is a definite answer, as every entry the rebuild or
    * `create_rule` writes is. */
  predicate Definite(items: map<string, RuleState>)
  {
    forall n :: n in items ==> items[n] != NoRule
  }

  /** A ready cache of definite entries. */
  predicate Settled(m: Memo)
  {
    m.ready && Definite(m.items)
  }

  /** `b` keeps every entry of `a`. */
  predicate Grows(a: map<string, RuleState>, b: map<string, RuleState>)
  {
    forall n :: n in a ==> n in b && b[n] == a[n]
  }

  /** From a settled cache, the later state is settled and has forgotten nothing. */
  predicate Extends(m: Memo, m': Memo)
  {
    Settled(m) ==> Settled(m') && Grows(m.items, m'.items)
  }

  lemma ExtendsTransitive(a: Memo, b: Memo, c: Memo)
    requires Extends(a, b) && Extends(b, c)
    ensures Extends(a, c)
  {
  }

  /** `create_rule` writes only definite answers. */
  lemma {:induction false} CreateRuleKeepsDefinite(items: map<string, RuleState>, rules: seq<Rule>,
                                                    name: string, materials: set<string>)
    requires Definite(items)
    ensures Definite(CreateRule(items, rules, name, materials))
  {
    if rules != [] {
      CreateRuleKeepsDefinite(items, rules[..|rules| - 1], name, materials);
    }
  }

  // ---------------------------------------------------------------------------------------
  // get_autopickup_rule

  /** The answer of `get_autopickup_rule` from what the first lookup found (`cached`) and
    * what the second lookup found after on-demand classification (`created`). */
  function Verdict(cached: RuleState, created: RuleState): (v: RuleState)
    ensures v == Blacklisted <==> cached == Blacklisted
    ensures v == Whitelisted <==> cached == Whitelisted || (cached == NoRule && created == Whitelisted)
    ensures cached == NoRule && created == Blacklisted ==> v == NoRule
  {
    match cached
    case Whitelisted => Whitelisted
    case Blacklisted => Blacklisted
    case NoRule => if created == Whitelisted then Whitelisted else NoRule
  }

  /** An answer of `get_autopickup_rule` and the cache state after it. */
  datatype Asked = Asked(v: RuleState, memo: Memo)

  /** `get_autopickup_rule` from the cache state `m`: look the name up (rebuilding a stale
    * cache); when it has no entry, classify the item on demand with the global, then the
    * character rules, and look again. */
  function AutopickupRule(env: Env, m: Memo, it: Item): (a: Asked)
    ensures a.memo.ready
    ensures a.v == Blacklisted <==> Lookup(Seen(env, m), it.name) == Blacklisted
    ensures a.v == Whitelisted <==> Lookup(a.memo.items, it.name) == Whitelisted
    ensures Lookup(Seen(env, m), it.name) != NoRule ==> a.memo.items == Seen(env, m)
  {
    var before := Seen(env, m);
    var after :=
      if Lookup(before, it.name) == NoRule then CreateRule(before, env.rules, it.name, it.materials)
      else before;
    Asked(Verdict(Lookup(before, it.name), Lookup(after, it.name)), Memo(true, after, if m.ready then m.temps else map[]))
  }

  /** A name the ready cache already classifies is answered from the cache, and the cache
    * does not change. */
  lemma AskKnown(env: Env, m: Memo, it: Item)
    ensures Settled(m) && it.name in m.items ==> AutopickupRule(env, m, it) == Asked(m.items[it.name], m)
  {
  }

  /** A query never loses an entry of a settled cache, and keeps it settled. */
  lemma AskExtends(env: Env, m: Memo, it: Item)
    ensures Extends(m, AutopickupRule(env, m, it).memo)
  {
    if Settled(m) && it.name !in m.items {
      var rules := env.rules;
      CreateRuleKeepsDefinite(m.items, rules, it.name, it.materials);
      forall n | n in m.items
        ensures n in CreateRule(m.items, rules, it.name, it.materials)
        ensures CreateRule(m.items, rules, it.name, it.materials)[n] == m.items[n]
      {
        CreateRuleTouchesOnlyName(m.items, rules, it.name, it.materials, n);
      }
    }
  }

  /** On-demand classification of a name the cache did not know: the last active rule of
    * the global-then-character lists that matches the item decides what is stored, and
    * only an include rule makes the answer `Whitelisted`; an on-demand blacklisting is
    * stored but answered as no rule. */
  lemma OnDemandVerdict(env: Env, m: Memo, it: Item, i: nat)
    requires it.name !in Seen(env, m)
    requires i < |env.rules| && Decides(env.rules[i], it.name, it.materials)
    requires forall j :: i < j < |env.rules| ==>
      !Decides(env.rules[j], it.name, it.materials)
    ensures AutopickupRule(env, m, it).v == if env.rules[i].exclude then NoRule else Whitelisted
    ensures it.name in AutopickupRule(env, m, it).memo.items
    ensures AutopickupRule(env, m, it).memo.items[it.name] == StateOf(env.rules[i])
  {
    LastMatchDecides(Seen(env, m), env.rules, it.name, it.materials, i);
  }

  /** With no matching rule at all the item stays unclassified and the answer is no rule. */
  lemma OnDemandNoMatch(env: Env, m: Memo, it: Item)
    requires it.name !in Seen(env, m)
    requires forall j :: 0 <= j < |env.rules| ==>
      !Decides(env.rules[j], it.name, it.materials)
    ensures AutopickupRule(env, m, it) == Asked(NoRule, AutopickupRule(env, m, it).memo)
    ensures AutopickupRule(env, m, it).memo.items == Seen(env, m)
  {
    NoMatchKeeps(Seen(env, m), env.rules, it.name, it.materials);
  }

  /** `get_autopickup_rule`. */
  method GetAutopickupRule(s: PlayerSettings, it: Item, catalog: seq<ItemType>) returns (v: RuleState)
    modifies s.cache
    ensures AutopickupRule(EnvOf(s, catalog), old(MemoOf(s.cache)), it) == Asked(v, MemoOf(s.cache))
  {
    var state := s.CheckItem(it.name, catalog);
    if state == Whitelisted {
      v := Whitelisted;
    } else if state != Blacklisted {
      s.CreateRule(it);
      var again := s.CheckItem(it.name, catalog);
      if again == Whitelisted {
        v := Whitelisted;
      } else {
        v := NoRule;
      }
    } else {
      v := Blacklisted;
    }
  }

  // ---------------------------------------------------------------------------------------
  // empty_autopickup_target

  /** Which entries a container keeps: a rigid one drops only what is blacklisted, any other
    * keeps only what is whitelisted. */
  predicate Keeps(rigid: bool, v: RuleState)
  {
    if rigid then v != Blacklisted else v == Whitelisted
  }

  function KeepFlags(rigid: bool, vs: seq<RuleState>): (k: seq<bool>)
    ensures |k| == |vs|
    ensures forall i :: 0 <= i < |vs| ==> k[i] == Keeps(rigid, vs[i])
  {
    seq(|vs|, i requires 0 <= i < |vs| => Keeps(rigid, vs[i]))
  }

  lemma KeepFlagsPrefix(rigid: bool, vs: seq<RuleState>, v: RuleState)
    ensures KeepFlags(rigid, vs + [v])[..|vs|] == KeepFlags(rigid, vs)
    ensures Negate(KeepFlags(rigid, vs + [v]))[..|vs|] == Negate(KeepFlags(rigid, vs))
  {
  }

  /** A rigid container keeps exactly the entries that are not blacklisted, a non-rigid one
    * exactly the whitelisted ones. */
  lemma KeptEntries(cs: seq<Item>, rigid: bool, vs: seq<RuleState>)
    requires |vs| == |cs|
    ensures forall i :: 0 <= i < |cs| && (if rigid then vs[i] != Blacklisted else vs[i] == Whitelisted) ==>
      cs[i] in Select(cs, KeepFlags(rigid, vs))
    ensures forall x :: x in Select(cs, KeepFlags(rigid, vs)) ==>
      exists i :: 0 <= i < |cs| && cs[i] == x && (if rigid then vs[i] != Blacklisted else vs[i] == Whitelisted)
  {
    SelectMembers(cs, KeepFlags(rigid, vs));
  }

  /** What `empty_autopickup_target` leaves in the container, what it drops, the answers it
    * got, and the cache state after. */
  datatype Emptied = Emptied(kept: seq<Item>, dropped: seq<Item>, verdicts: seq<RuleState>, memo: Memo)

  /** `empty_autopickup_target` over the entries `cs` of a container: each entry is asked
    * about in turn; those the container does not keep are taken out, in order. */
  function EmptiedTarget(env: Env, m: Memo, cs: seq<Item>, rigid: bool): (o: Emptied)
    ensures |o.verdicts| == |cs|
  {
    if cs == [] then Emptied([], [], [], m)
    else SortStep(env, EmptiedTarget(env, m, cs[..|cs| - 1], rigid), cs[|cs| - 1], rigid)
  }

  /** The container keeps the entries its test keeps and drops the others, both in their
    * original order. */
  lemma {:induction false} EmptiedSelects(env: Env, m: Memo, cs: seq<Item>, rigid: bool)
    ensures var o := EmptiedTarget(env, m, cs, rigid);
      && o.kept == Select(cs, KeepFlags(rigid, o.verdicts))
      && o.dropped == Select(cs, Negate(KeepFlags(rigid, o.verdicts)))
  {
    if cs != [] {
      var n := |cs| - 1;
      EmptiedSelects(env, m, cs[..n], rigid);
      var p := EmptiedTarget(env, m, cs[..n], rigid);
      KeepFlagsPrefix(rigid, p.verdicts, AutopickupRule(env, p.memo, cs[n]).v);
    }
  }

  /** One entry of `empty_autopickup_target`: ask about it, then keep or drop it. */
  function SortStep(env: Env, p: Emptied, entry: Item, rigid: bool): Emptied
  {
    var a := AutopickupRule(env, p.memo, entry);
    if Keeps(rigid, a.v) then Emptied(p.kept + [entry], p.dropped, p.verdicts + [a.v], a.memo)
    else Emptied(p.kept, p.dropped + [entry], p.verdicts + [a.v], a.memo)
  }

  /** Emptying a container never loses an entry of a settled cache. */
  lemma {:induction false} EmptiedExtends(env: Env, m: Memo, cs: seq<Item>, rigid: bool)
    ensures Extends(m, EmptiedTarget(env, m, cs, rigid).memo)
  {
    if cs != [] {
      var n := |cs| - 1;
      EmptiedExtends(env, m, cs[..n], rigid);
      var p := EmptiedTarget(env, m, cs[..n], rigid);
      AskExtends(env, p.memo, cs[n]);
      ExtendsTransitive(m, p.memo, AutopickupRule(env, p.memo, cs[n]).memo);
    }
  }

  lemma EmptiedStep(env: Env, m: Memo, cs: seq<Item>, i: nat, rigid: bool)
    requires i < |cs|
    ensures EmptiedTarget(env, m, cs[..i + 1], rigid) == SortStep(env, EmptiedTarget(env, m, cs[..i], rigid), cs[i], rigid)
  {
    assert cs[..i + 1][..i] == cs[..i];
  }

  /** From a ready cache that already classifies every entry, the answers are the cached
    * entries and the cache does not change: with `KeptEntries`, a rigid container drops
    * exactly its blacklisted entries and a non-rigid one keeps exactly its whitelisted
    * ones. */
  lemma {:induction false} EmptiedFromKnownNames(env: Env, m: Memo, cs: seq<Item>, rigid: bool)
    requires Settled(m)
    requires forall k :: 0 <= k < |cs| ==> cs[k].name in m.items
    ensures EmptiedTarget(env, m, cs, rigid).memo == m
    ensures forall k :: 0 <= k < |cs| ==> EmptiedTarget(env, m, cs, rigid).verdicts[k] == m.items[cs[k].name]
  {
    if cs != [] {
      var n := |cs| - 1;
      assert forall k :: 0 <= k < n ==> cs[..n][k] == cs[k];
      EmptiedFromKnownNames(env, m, cs[..n], rigid);
      AskKnown(env, m, cs[n]);
    }
  }

  /** Kept and dropped entries together are a permutation of the original contents. */
  lemma EmptyTargetIsPermutation(env: Env, m: Memo, what: Item)
    ensures var o := EmptiedTarget(env, m, what.contents, what.rigid);
      multiset(o.kept) + multiset(o.dropped) == multiset(what.contents)
  {
    var o := EmptiedTarget(env, m, what.contents, what.rigid);
    EmptiedSelects(env, m, what.contents, what.rigid);
    SelectPartition(what.contents, KeepFlags(what.rigid, o.verdicts));
  }

  /** `empty_autopickup_target`: the container keeps what the function keeps, the dropped
    * entries are appended to the tile, and the cache ends as the function says. */
  method EmptyAutopickupTarget(s: PlayerSettings, tile: Tile, what: Item, catalog: seq<ItemType>)
    returns (what': Item)
    modifies s.cache, tile
    ensures var o := EmptiedTarget(EnvOf(s, catalog), old(MemoOf(s.cache)), what.contents, what.rigid);
      && what' == what.(contents := o.kept)
      && tile.items == old(tile.items) + o.dropped
      && MemoOf(s.cache) == o.memo
  {
    var kept := SortEntries(s, tile, what.contents, what.rigid, catalog);
    what' := what.(contents := kept);
  }

  /** The loop of `empty_autopickup_target` over the entries `cs` of a container. */
  method SortEntries(s: PlayerSettings, tile: Tile, cs: seq<Item>, rigid: bool, catalog: seq<ItemType>)
    returns (kept: seq<Item>)
    modifies s.cache, tile
    ensures var o := EmptiedTarget(EnvOf(s, catalog), old(MemoOf(s.cache)), cs, rigid);
      kept == o.kept && tile.items == old(tile.items) + o.dropped && MemoOf(s.cache) == o.memo
  {
    ghost var env, m := EnvOf(s, catalog), MemoOf(s.cache);
    ghost var o := Emptied([], [], [], m);
    kept := [];
    for i := 0 to |cs|
      invariant o == EmptiedTarget(env, m, cs[..i], rigid)
      invariant kept == o.kept && tile.items == old(tile.items) + o.dropped && MemoOf(s.cache) == o.memo
    {
      EmptiedStep(env, m, cs, i, rigid);
      var entry := cs[i];
      var dropIt := DropsEntry(s, entry, rigid, catalog);
      o := SortStep(env, o, entry, rigid);
      if dropIt {
        tile.items := tile.items + [entry];
      } else {
        kept := kept + [entry];
      }
    }
    assert cs[..|cs|] == cs;
  }

  /** Whether `empty_autopickup_target` drops an entry: the answer for the entry, and the
    * container's test on it. */
  method DropsEntry(s: PlayerSettings, entry: Item, rigid: bool, catalog: seq<ItemType>) returns (dropIt: bool)
    modifies s.cache
    ensures var a := AutopickupRule(EnvOf(s, catalog), old(MemoOf(s.cache)), entry);
      (dropIt <==> !Keeps(rigid, a.v)) && MemoOf(s.cache) == a.memo
  {
    var v := GetAutopickupRule(s, entry, catalog);
    dropIt := if rigid then v == Blacklisted else v != Whitelisted;
  }

  // ---------------------------------------------------------------------------------------
  // get_autopickup_items

  /** `path` lies inside the item at `from`. */
  predicate Below(from: seq<nat>, path: seq<nat>)
  {
    |from| < |path| && path[..|from|] == from
  }

  /** A liquid that is not a container: never picked up on its own. */
  predicate BareLiquid(it: Item)
  {
    it.liquid && !it.isContainer
  }

  /** Every selected item is a battery. */
  predicate AllBatteries(r: seq<Location>)
  {
    forall l :: l in r ==> l.item.isBattery
  }

  /** A selection made from the container at `from`: within the limits, and either the
    * container itself or something inside it that is not a bare liquid. */
  predicate Picked(from: seq<nat>, l: Location, opts: Options)
  {
    WithinLimits(l.item, opts) && (l.path == from || (Below(from, l.path) && !BareLiquid(l.item)))
  }

  /** A selection made inside entry `i` of the container at `from` lies below `from`. */
  lemma PickedInEntry(from: seq<nat>, i: nat, l: Location, opts: Options)
    requires Picked(from + [i], l, opts) && !BareLiquid(l.item)
    ensures Picked(from, l, opts) && l.path != from
  {
    assert l.path[..|from|] == l.path[..|from + [i]|][..|from|];
  }

  lemma AddedInEntry(from: seq<nat>, i: nat, added: seq<Location>, opts: Options)
    requires forall l :: l in added ==> Picked(from + [i], l, opts) && !BareLiquid(l.item)
    ensures forall l :: l in added ==> Picked(from, l, opts) && l.path != from
  {
    forall l | l in added
      ensures Picked(from, l, opts) && l.path != from
    {
      PickedInEntry(from, i, l, opts);
    }
  }

  /** What one pass of the entry loop gives: the selections it adds, the entry as updated,
    * the entry's answer (`NoRule` when it is outside the limits and not asked about), the
    * `break`, whether `pick_all_items` survives, the cache state and the tile drops. */
  datatype Visited = Visited(added: seq<Location>, entry': Item, v: RuleState, stop: bool, keepsAll: bool,
                             memo: Memo, drops: seq<Item>)

  /** The state of the entry loop: the selections so far, the entries as updated, the
    * answers so far, `pick_all_items`, `force_pick_container`, `any_whitelisted`, the
    * cache state and the tile drops. */
  datatype Walk = Walk(r: seq<Location>, updated: seq<Item>, verdicts: seq<RuleState>, pickAll: bool,
                       forcePick: bool, anyWhitelisted: bool, memo: Memo, drops: seq<Item>)

  /** What `get_autopickup_items` gives: the selections, the container as updated, the entry
    * loop's final state, whether the container itself was asked about and its answer, the
    * cache state and the tile drops. */
  datatype Got = Got(r: seq<Location>, c': Item, walk: Walk, asked: bool, self: RuleState, memo: Memo,
                     drops: seq<Item>)

  /** The loop state after `i` entries of `cs` at `from`. */
  predicate WalkInv(from: seq<nat>, cs: seq<Item>, i: nat, w: Walk, opts: Options)
  {
    && i <= |cs| && |w.updated| == |cs| && |w.verdicts| == i
    && (forall k :: 0 <= k < |cs| ==> w.updated[k] == cs[k].(contents := w.updated[k].contents))
    && (w.anyWhitelisted <==> Whitelisted in w.verdicts)
    && (forall l :: l in w.r ==> Picked(from, l, opts) && l.path != from)
  }

  /** One pass of the entry loop of `get_autopickup_items` for entry `i` of the container at
    * `from`: an entry outside the limits is skipped, any other is asked about. */
  function EntryPass(env: Env, opts: Options, m: Memo, from: seq<nat>, i: nat, entry: Item, forcePick: bool)
    : (o: Visited)
    decreases entry, 3
    ensures o.entry' == entry.(contents := o.entry'.contents)
    ensures WithinLimits(entry, opts) ==> o.v == AutopickupRule(env, m, entry).v
    ensures !WithinLimits(entry, opts) ==> o == Visited([], entry, NoRule, false, false, m, [])
    ensures o.v == Whitelisted ==> o.keepsAll
    ensures forcePick ==> o.added == [] && !o.stop
    ensures o.stop <==> o.v == Whitelisted && !forcePick && BareLiquid(entry)
    ensures o.stop ==> o.added == []
    ensures o.v == Whitelisted && !forcePick && !BareLiquid(entry) ==> o.added == [Location(from + [i], o.entry')]
    ensures forall l :: l in o.added ==> Picked(from + [i], l, opts) && !BareLiquid(l.item)
  {
    if !WithinLimits(entry, opts) then Visited([], entry, NoRule, false, false, m, [])
    else
      var a := AutopickupRule(env, m, entry);
      if a.v == Whitelisted then WhitelistedPass(env, opts, a.memo, from + [i], entry, forcePick)
      else UnlistedPass(env, opts, a.memo, from + [i], entry, forcePick, a.v)
  }

  /** The pass for a whitelisted entry within the limits at `location`: unless the
    * container is already forced, a container is emptied of what it does not keep and
    * selected, a bare liquid forces the container and ends the loop, anything else is
    * selected. */
  function WhitelistedPass(env: Env, opts: Options, m: Memo, location: seq<nat>, entry: Item, forcePick: bool)
    : (o: Visited)
    requires WithinLimits(entry, opts)
    ensures o.entry' == entry.(contents := o.entry'.contents)
    ensures o.v == Whitelisted && o.keepsAll
    ensures forcePick ==> o.added == [] && !o.stop
    ensures o.stop <==> !forcePick && BareLiquid(entry)
    ensures o.stop ==> o.added == []
    ensures !forcePick && !BareLiquid(entry) ==> o.added == [Location(location, o.entry')]
    ensures forall l :: l in o.added ==> Picked(location, l, opts) && !BareLiquid(l.item)
  {
    if forcePick then Visited([], entry, Whitelisted, false, true, m, [])
    else if entry.isContainer then
      var e := EmptiedTarget(env, m, entry.contents, entry.rigid);
      var emptied := entry.(contents := e.kept);
      EmptiedSelects(env, m, entry.contents, entry.rigid);
      RemovalKeepsLimits(entry, KeepFlags(entry.rigid, e.verdicts), opts);
      Visited([Location(location, emptied)], emptied, Whitelisted, false, true, e.memo, e.dropped)
    else if entry.liquid then Visited([], entry, Whitelisted, true, true, m, [])
    else Visited([Location(location, entry)], entry, Whitelisted, false, true, m, [])
  }

  /** The pass for an entry within the limits at `location` that is not whitelisted: a
    * container with contents is searched, unless the container is already forced; the
    * pass keeps `pick_all_items` only when the search selected the entry whole. */
  function UnlistedPass(env: Env, opts: Options, m: Memo, location: seq<nat>, entry: Item, forcePick: bool,
                        v: RuleState)
    : (o: Visited)
    requires v != Whitelisted
    decreases entry, 2
    ensures o.entry' == entry.(contents := o.entry'.contents)
    ensures o.v == v && !o.stop
    ensures forcePick ==> o.added == []
    ensures forall l :: l in o.added ==> Picked(location, l, opts) && !BareLiquid(l.item)
  {
    if !forcePick && entry.isContainer && entry.contents != [] then
      var g := AutopickupItems(env, opts, m, location, entry);
      assert g.c'.isContainer;
      NestedNotBare(location, g.r, g.c', opts);
      Visited(g.r, g.c', v, false, g.r == [Location(location, g.c')], g.memo, g.drops)
    else Visited([], entry, v, false, false, m, [])
  }

  /** Selections from a container that is not a bare liquid are not bare liquids. */
  lemma NestedNotBare(location: seq<nat>, r: seq<Location>, c': Item, opts: Options)
    requires forall l :: l in r ==> Picked(location, l, opts)
    requires forall l :: l in r && l.path == location ==> r == [Location(location, c')]
    requires !BareLiquid(c')
    ensures forall l :: l in r ==> Picked(location, l, opts) && !BareLiquid(l.item)
  {
  }

  /** The entry loop of `get_autopickup_items` from entry `i` on. A whitelisted bare liquid
    * forces the container and ends the loop. */
  function EntryLoop(env: Env, opts: Options, from: seq<nat>, cs: seq<Item>, i: nat, w: Walk): (w': Walk)
    requires WalkInv(from, cs, i, w, opts)
    decreases cs, 0, |cs| - i
    ensures WalkInv(from, cs, |w'.verdicts|, w', opts)
    ensures w.verdicts <= w'.verdicts && w.r <= w'.r
    ensures forall k :: 0 <= k < i ==> w'.updated[k] == w.updated[k]
    ensures w.forcePick ==> w'.forcePick && w'.r == w.r
    ensures !w'.forcePick ==> |w'.verdicts| == |cs|
  {
    if i == |cs| then w
    else
      var o := EntryPass(env, opts, w.memo, from, i, cs[i], w.forcePick);
      AddedInEntry(from, i, o.added, opts);
      var w1 := Entered(w, i, o);
      if o.stop then w1.(forcePick := true)
      else EntryLoop(env, opts, from, cs, i + 1, Advanced(w, i, o))
  }

  /** The loop state once entry `i` has been visited, before its selections are added. */
  function Entered(w: Walk, i: nat, o: Visited): Walk
    requires i < |w.updated|
  {
    w.(updated := w.updated[i := o.entry'], verdicts := w.verdicts + [o.v],
       anyWhitelisted := w.anyWhitelisted || o.v == Whitelisted, memo := o.memo, drops := w.drops + o.drops)
  }

  /** The loop state once entry `i` has been visited and the loop goes on. */
  function Advanced(w: Walk, i: nat, o: Visited): Walk
    requires i < |w.updated|
  {
    Entered(w, i, o).(r := w.r + o.added, pickAll := w.pickAll && o.keepsAll)
  }

  /** Dropping in two rounds leaves the tile as dropping both at once. */
  lemma DropsAppend(t: seq<Item>, d1: seq<Item>, d2: seq<Item>)
    ensures t + (d1 + d2) == (t + d1) + d2
  {
  }

  /** One step of the entry loop: a `break`, or the rest of the loop from the next entry. */
  lemma LoopUnfold(env: Env, opts: Options, from: seq<nat>, cs: seq<Item>, i: nat, w: Walk)
    requires WalkInv(from, cs, i, w, opts) && i < |cs|
    ensures var o := EntryPass(env, opts, w.memo, from, i, cs[i], w.forcePick);
      && (o.stop ==> EntryLoop(env, opts, from, cs, i, w) == Entered(w, i, o).(forcePick := true))
      && (!o.stop ==> WalkInv(from, cs, i + 1, Advanced(w, i, o), opts)
                      && EntryLoop(env, opts, from, cs, i, w) == EntryLoop(env, opts, from, cs, i + 1, Advanced(w, i, o)))
  {
    var o := EntryPass(env, opts, w.memo, from, i, cs[i], w.forcePick);
    AddedInEntry(from, i, o.added, opts);
  }

  /** The loop state before the first entry of the container `c`. */
  function StartWalk(c: Item, m: Memo): Walk
  {
    Walk([], c.contents, [], true, c.sealed, false, m, [])
  }

  /** After the entry loop: whether the container replaces its selections, is dropped with
    * them, or hands them over without itself. */
  function ContainerDecision(from: seq<nat>, c: Item, c': Item, r: seq<Location>, forcePick: bool,
                             anyWhitelisted: bool, v: RuleState, opts: Options): seq<Location>
  {
    if v == Blacklisted || !anyWhitelisted || (c.corpse && v != Whitelisted) then r
    else if WithinLimits(c', opts) && !(c.batteryCapacity && AllBatteries(r)) then [Location(from, c')]
    else if forcePick then []
    else r
  }

  /** `get_autopickup_items` on the container `c` at `from`. The container comes back with
    * its selected container entries emptied of what they drop. */
  function AutopickupItems(env: Env, opts: Options, m: Memo, from: seq<nat>, c: Item): (g: Got)
    decreases c, 1
    ensures g.c' == c.(contents := g.c'.contents) && |g.c'.contents| == |c.contents|
    ensures forall l :: l in g.r ==> Picked(from, l, opts)
    ensures forall l :: l in g.r && l.path == from ==> g.r == [Location(from, g.c')]
  {
    var w0 := StartWalk(c, m);
    if !opts.pickupOwned && c.owned then Got([], c, w0, false, NoRule, m, [])
    else
      assert WalkInv(from, c.contents, 0, w0, opts);
      var w := EntryLoop(env, opts, from, c.contents, 0, w0);
      var c' := c.(contents := w.updated);
      if c.contents != [] && (w.pickAll || w.forcePick) then
        var a := AutopickupRule(env, w.memo, c');
        Got(ContainerDecision(from, c, c', w.r, w.forcePick, w.anyWhitelisted, a.v, opts), c', w, true, a.v, a.memo, w.drops)
      else Got(w.r, c', w, false, NoRule, w.memo, w.drops)
  }

  /** How `get_autopickup_items` walks the container `c` at `from`. */
  lemma ItemsWalk(env: Env, opts: Options, m: Memo, from: seq<nat>, c: Item)
    ensures var g := AutopickupItems(env, opts, m, from, c);
      // owned containers are never searched
      && (!opts.pickupOwned && c.owned ==> g.r == [] && g.c' == c && g.memo == m && g.drops == [] && !g.asked)
      && (opts.pickupOwned || !c.owned ==>
            g.walk == EntryLoop(env, opts, from, c.contents, 0, StartWalk(c, m)) && g.c'.contents == g.walk.updated)
      && (c.contents == [] ==> g.r == [])
  {
    if opts.pickupOwned || !c.owned {
      var w0 := StartWalk(c, m);
      assert WalkInv(from, c.contents, 0, w0, opts);
      var w := EntryLoop(env, opts, from, c.contents, 0, w0);
      var g := AutopickupItems(env, opts, m, from, c);
      assert g.walk == w && g.c' == c.(contents := w.updated);
      if c.contents == [] {
        assert w == w0;
      }
    }
  }

  /** The three shapes the result of `get_autopickup_items` can take; a sealed container is
    * never opened. */
  lemma ItemsShape(env: Env, opts: Options, m: Memo, from: seq<nat>, c: Item)
    ensures var g := AutopickupItems(env, opts, m, from, c);
      // a sealed container is never opened: at most the container itself is selected
      && (c.sealed ==> g.walk.r == [] && (g.r == [] || g.r == [Location(from, g.c')]))
      && (g.r == [] || g.r == g.walk.r || g.r == [Location(from, g.c')])
  {
    if opts.pickupOwned || !c.owned {
      var w0 := StartWalk(c, m);
      assert WalkInv(from, c.contents, 0, w0, opts);
      var w := EntryLoop(env, opts, from, c.contents, 0, w0);
      var g := AutopickupItems(env, opts, m, from, c);
      assert g.walk == w && g.c' == c.(contents := w.updated);
    }
  }

  /** When `get_autopickup_items` asks about the container `c` itself, and when it selects
    * the container instead of what it found inside. */
  lemma ItemsDecision(env: Env, opts: Options, m: Memo, from: seq<nat>, c: Item)
    ensures var g := AutopickupItems(env, opts, m, from, c);
      // the container is asked about when it has contents and all were approved, or it is forced
      && (g.asked <==> (opts.pickupOwned || !c.owned) && c.contents != [] && (g.walk.pickAll || g.walk.forcePick))
      && (g.asked ==> g.self == AutopickupRule(env, g.walk.memo, g.c').v)
      // a blacklisted container hands over its selections without itself
      && (g.asked && g.self == Blacklisted ==> g.r == g.walk.r)
      // when the container itself is selected
      && (g.r == [Location(from, g.c')] <==>
            && g.asked && g.self != Blacklisted && g.walk.anyWhitelisted
            && (c.corpse ==> g.self == Whitelisted)
            && WithinLimits(g.c', opts)
            && !(c.batteryCapacity && AllBatteries(g.walk.r)))
  {
    if opts.pickupOwned || !c.owned {
      var w0 := StartWalk(c, m);
      assert WalkInv(from, c.contents, 0, w0, opts);
      var w := EntryLoop(env, opts, from, c.contents, 0, w0);
      var g := AutopickupItems(env, opts, m, from, c);
      assert g.walk == w && g.c' == c.(contents := w.updated);
      // nothing the entry loop selects sits at the container's own path
      assert Location(from, g.c') !in w.r;
      assert w.r != [Location(from, g.c')];
    }
  }

  /** From a settled cache, an entry whose name the cache already classifies gets the cached
    * answer, or no rule when it is outside the limits. */
  lemma KnownPass(env: Env, opts: Options, m: Memo, from: seq<nat>, i: nat, entry: Item, forcePick: bool)
    requires Settled(m) && entry.name in m.items
    ensures EntryPass(env, opts, m, from, i, entry, forcePick).v ==
      if WithinLimits(entry, opts) then m.items[entry.name] else NoRule
  {
    AskKnown(env, m, entry);
  }

  /** Visiting an entry never loses an entry of a settled cache. */
  lemma {:induction false} PassExtends(env: Env, opts: Options, m: Memo, from: seq<nat>, i: nat, entry: Item,
                                       forcePick: bool)
    decreases entry, 3
    ensures Extends(m, EntryPass(env, opts, m, from, i, entry, forcePick).memo)
  {
    if WithinLimits(entry, opts) {
      var a := AutopickupRule(env, m, entry);
      AskExtends(env, m, entry);
      var o := EntryPass(env, opts, m, from, i, entry, forcePick);
      if a.v == Whitelisted {
        assert o == WhitelistedPass(env, opts, a.memo, from + [i], entry, forcePick);
        if !forcePick && entry.isContainer {
          EmptiedExtends(env, a.memo, entry.contents, entry.rigid);
          ExtendsTransitive(m, a.memo, o.memo);
        } else {
          assert o.memo == a.memo;
        }
      } else {
        assert o == UnlistedPass(env, opts, a.memo, from + [i], entry, forcePick, a.v);
        if !forcePick && entry.isContainer && entry.contents != [] {
          ItemsExtends(env, opts, a.memo, from + [i], entry);
          ExtendsTransitive(m, a.memo, o.memo);
        } else {
          assert o.memo == a.memo;
        }
      }
    }
  }

  /** The rest of the entry loop never loses an entry of a settled cache. */
  lemma {:induction false} LoopExtends(env: Env, opts: Options, from: seq<nat>, cs: seq<Item>, i: nat, w: Walk)
    requires WalkInv(from, cs, i, w, opts)
    decreases cs, 0, |cs| - i
    ensures Extends(w.memo, EntryLoop(env, opts, from, cs, i, w).memo)
  {
    if i < |cs| {
      var o := EntryPass(env, opts, w.memo, from, i, cs[i], w.forcePick);
      PassExtends(env, opts, w.memo, from, i, cs[i], w.forcePick);
      LoopUnfold(env, opts, from, cs, i, w);
      if !o.stop {
        var w2 := Advanced(w, i, o);
        LoopExtends(env, opts, from, cs, i + 1, w2);
        ExtendsTransitive(w.memo, o.memo, EntryLoop(env, opts, from, cs, i + 1, w2).memo);
      }
    }
  }

  /** Searching a container never loses an entry of a settled cache. */
  lemma {:induction false} ItemsExtends(env: Env, opts: Options, m: Memo, from: seq<nat>, c: Item)
    decreases c, 1
    ensures Extends(m, AutopickupItems(env, opts, m, from, c).memo)
  {
    if opts.pickupOwned || !c.owned {
      var w0 := StartWalk(c, m);
      assert WalkInv(from, c.contents, 0, w0, opts);
      LoopExtends(env, opts, from, c.contents, 0, w0);
      var w := EntryLoop(env, opts, from, c.contents, 0, w0);
      var c' := c.(contents := w.updated);
      AskExtends(env, w.memo, c');
      ExtendsTransitive(m, w.memo, AutopickupRule(env, w.memo, c').memo);
    }
  }

  /** Unless the container is forced, every whitelisted entry that is not a bare liquid is
    * selected, as it stands after emptying. */
  lemma {:induction false} LoopSelects(env: Env, opts: Options, from: seq<nat>, cs: seq<Item>, i: nat, w: Walk)
    requires WalkInv(from, cs, i, w, opts) && !w.forcePick
    decreases |cs| - i
    ensures var w' := EntryLoop(env, opts, from, cs, i, w);
      forall k :: i <= k < |w'.verdicts| && w'.verdicts[k] == Whitelisted && !BareLiquid(cs[k]) ==>
        Location(from + [k], w'.updated[k]) in w'.r
  {
    if i < |cs| {
      var o := EntryPass(env, opts, w.memo, from, i, cs[i], w.forcePick);
      LoopUnfold(env, opts, from, cs, i, w);
      if !o.stop {
        var w2 := Advanced(w, i, o);
        LoopSelects(env, opts, from, cs, i + 1, w2);
        var w' := EntryLoop(env, opts, from, cs, i + 1, w2);
        assert w'.verdicts[i] == o.v && w'.updated[i] == o.entry';
        if o.v == Whitelisted && !BareLiquid(cs[i]) {
          assert w'.r[|w.r|] == Location(from + [i], o.entry');
        }
      }
    }
  }

  /** From a settled cache, an entry whose name the cache already classifies gets the cached
    * answer, or no rule when it is outside the limits and never asked about. */
  lemma {:induction false} LoopKnown(env: Env, opts: Options, from: seq<nat>, cs: seq<Item>, i: nat, w: Walk)
    requires WalkInv(from, cs, i, w, opts) && Settled(w.memo)
    decreases |cs| - i
    ensures var w' := EntryLoop(env, opts, from, cs, i, w);
      forall k :: i <= k < |w'.verdicts| && cs[k].name in w.memo.items ==>
        w'.verdicts[k] == if WithinLimits(cs[k], opts) then w.memo.items[cs[k].name] else NoRule
  {
    if i < |cs| {
      var o := EntryPass(env, opts, w.memo, from, i, cs[i], w.forcePick);
      LoopUnfold(env, opts, from, cs, i, w);
      if cs[i].name in w.memo.items {
        KnownPass(env, opts, w.memo, from, i, cs[i], w.forcePick);
      }
      if !o.stop {
        PassExtends(env, opts, w.memo, from, i, cs[i], w.forcePick);
        var w2 := Advanced(w, i, o);
        LoopKnown(env, opts, from, cs, i + 1, w2);
        assert EntryLoop(env, opts, from, cs, i + 1, w2).verdicts[i] == o.v;
      }
    }
  }

  /** `get_autopickup_items`: the selections and the container as updated are the function's,
    * the drops are appended to the tile and the cache ends as the function says. */
  method GetAutopickupItems(s: PlayerSettings, tile: Tile, from: seq<nat>, c: Item, opts: Options,
                            catalog: seq<ItemType>)
    returns (r: seq<Location>, c': Item)
    modifies s.cache, tile
    decreases c, 1
    ensures var g := AutopickupItems(EnvOf(s, catalog), opts, old(MemoOf(s.cache)), from, c);
      r == g.r && c' == g.c' && tile.items == old(tile.items) + g.drops && MemoOf(s.cache) == g.memo
  {
    ghost var env := EnvOf(s, catalog);
    ghost var g := AutopickupItems(env, opts, MemoOf(s.cache), from, c);
    r, c' := [], c;
    if !opts.pickupOwned && c.owned {
      return;
    }
    var updated, pickAll, forcePick, anyWhitelisted;
    r, updated, pickAll, forcePick, anyWhitelisted := ScanEntries(s, tile, from, c.contents, c.sealed, opts, catalog);
    assert g.walk == EntryLoop(env, opts, from, c.contents, 0, Walk([], c.contents, [], true, c.sealed, false, old(MemoOf(s.cache)), []));
    c' := c.(contents := updated);
    if c.contents != [] && (pickAll || forcePick) {
      r := DecideContainer(s, from, c, c', r, forcePick, anyWhitelisted, opts, catalog);
    }
  }

  /** The end of `get_autopickup_items`: the container is asked about, and it either
    * replaces the selections made inside it, clears them, or leaves them. */
  method DecideContainer(s: PlayerSettings, from: seq<nat>, c: Item, c': Item, r: seq<Location>, forcePick: bool,
                         anyWhitelisted: bool, opts: Options, catalog: seq<ItemType>)
    returns (r': seq<Location>)
    modifies s.cache
    ensures var a := AutopickupRule(EnvOf(s, catalog), old(MemoOf(s.cache)), c');
      r' == ContainerDecision(from, c, c', r, forcePick, anyWhitelisted, a.v, opts) && MemoOf(s.cache) == a.memo
  {
    r' := r;
    var state := GetAutopickupRule(s, c', catalog);
    if state == Blacklisted || !anyWhitelisted || (c.corpse && state != Whitelisted) {
      return;
    }
    var allBatteries := true;
    var powered := c.batteryCapacity;
    if powered {
      allBatteries := AllBatteries(r);
    }
    var batteriesFromTool := powered && allBatteries;
    if WithinLimits(c', opts) && !batteriesFromTool {
      r' := [Location(from, c')];
    } else if forcePick {
      r' := [];
    }
  }

  /** The entry loop of `get_autopickup_items` over the entries `cs` of the container at
    * `from`, with `force_pick_container` starting as `sealed`. */
  method ScanEntries(s: PlayerSettings, tile: Tile, from: seq<nat>, cs: seq<Item>, sealed: bool,
                     opts: Options, catalog: seq<ItemType>)
    returns (r: seq<Location>, updated: seq<Item>, pickAll: bool, forcePick: bool, anyWhitelisted: bool)
    modifies s.cache, tile
    decreases cs, 0
    ensures WalkInv(from, cs, 0, Walk([], cs, [], true, sealed, false, old(MemoOf(s.cache)), []), opts)
    ensures var w := EntryLoop(EnvOf(s, catalog), opts, from, cs, 0,
                               Walk([], cs, [], true, sealed, false, old(MemoOf(s.cache)), []));
      && r == w.r && updated == w.updated && pickAll == w.pickAll && forcePick == w.forcePick
      && anyWhitelisted == w.anyWhitelisted && tile.items == old(tile.items) + w.drops && MemoOf(s.cache) == w.memo
  {
    ghost var env := EnvOf(s, catalog);
    ghost var verdicts: seq<RuleState>, drops: seq<Item> := [], [];
    r, updated, pickAll, forcePick, anyWhitelisted := [], cs, true, sealed, false;
    ghost var goal := EntryLoop(env, opts, from, cs, 0, Walk(r, updated, verdicts, pickAll, forcePick, anyWhitelisted, MemoOf(s.cache), drops));
    var i := 0;
    while i < |cs|
      invariant i == |verdicts|
      invariant WalkInv(from, cs, i, Walk(r, updated, verdicts, pickAll, forcePick, anyWhitelisted, MemoOf(s.cache), drops), opts)
      invariant EntryLoop(env, opts, from, cs, i, Walk(r, updated, verdicts, pickAll, forcePick, anyWhitelisted, MemoOf(s.cache), drops)) == goal
      invariant tile.items == old(tile.items) + drops
    {
      ghost var w := Walk(r, updated, verdicts, pickAll, forcePick, anyWhitelisted, MemoOf(s.cache), drops);
      ghost var o := EntryPass(env, opts, w.memo, from, i, cs[i], forcePick);
      LoopUnfold(env, opts, from, cs, i, w);
      var added, entry, whitelisted, stop, keepsAll := VisitEntry(s, tile, from, i, cs[i], forcePick, opts, catalog);
      assert added == o.added && entry == o.entry' && stop == o.stop && keepsAll == o.keepsAll;
      DropsAppend(old(tile.items), drops, o.drops);
      updated := updated[i := entry];
      anyWhitelisted := anyWhitelisted || whitelisted;
      verdicts, drops := verdicts + [o.v], drops + o.drops;
      if stop {
        forcePick := true;
        assert goal == Walk(r, updated, verdicts, pickAll, forcePick, anyWhitelisted, MemoOf(s.cache), drops);
        break;
      }
      pickAll := pickAll && keepsAll;
      r := r + added;
      i := i + 1;
    }
  }

  /** One pass of the entry loop for entry `i` of the container at `from`. `stop` is the
    * `break` on a whitelisted bare liquid; `keepsAll` is false when the pass clears
    * `pick_all_items`. */
  method VisitEntry(s: PlayerSettings, tile: Tile, from: seq<nat>, i: nat, entry: Item, forcePick: bool,
                    opts: Options, catalog: seq<ItemType>)
    returns (added: seq<Location>, entry': Item, whitelisted: bool, stop: bool, keepsAll: bool)
    modifies s.cache, tile
    decreases entry, 3
    ensures var o := EntryPass(EnvOf(s, catalog), opts, old(MemoOf(s.cache)), from, i, entry, forcePick);
      && added == o.added && entry' == o.entry' && (whitelisted <==> o.v == Whitelisted)
      && stop == o.stop && keepsAll == o.keepsAll
      && tile.items == old(tile.items) + o.drops && MemoOf(s.cache) == o.memo
  {
    added, entry', whitelisted, stop, keepsAll := [], entry, false, false, false;
    var location := from + [i];
    if !WithinLimits(entry, opts) {
      return;
    }
    var state := GetAutopickupRule(s, entry, catalog);
    if state == Whitelisted {
      whitelisted := true;
      keepsAll := true;
      if !forcePick {
        if entry.isContainer {
          entry' := EmptyAutopickupTarget(s, tile, entry, catalog);
        } else if entry.liquid {
          stop := true;
          return;
        }
        added := [Location(location, entry')];
      }
    } else if !forcePick && entry.isContainer && entry.contents != [] {
      var nested, updated := GetAutopickupItems(s, tile, location, entry, opts, catalog);
      entry' := updated;
      keepsAll := nested == [Location(location, updated)];
      added := nested;
    }
  }

  // ---------------------------------------------------------------------------------------
  // select_items

  /** A tile entry `select_items` may take from: not owned (unless the option allows it)
    * and not a spilt liquid. */
  predicate TopAllowed(it: Item, opts: Options)
  {
    (opts.pickupOwned || !it.owned) && !it.liquid
  }

  /** A selection made from tile entry `i` has `i` as the first index of its path. */
  lemma PickedAtTop(i: nat, l: Location, opts: Options)
    requires Picked([i], l, opts)
    ensures |l.path| >= 1 && l.path[0] == i
    ensures l.path != [i] ==> !BareLiquid(l.item)
  {
    if l.path != [i] {
      assert l.path[..1] == [i];
    }
  }

  lemma NestedAtTop(i: nat, r: seq<Location>, c': Item, opts: Options)
    requires forall l :: l in r ==> Picked([i], l, opts)
    requires forall l :: l in r && l.path == [i] ==> r == [Location([i], c')]
    requires !c'.liquid
    ensures forall l :: l in r ==> |l.path| >= 1 && l.path[0] == i && WithinLimits(l.item, opts) && !BareLiquid(l.item)
  {
    forall l | l in r
      ensures |l.path| >= 1 && l.path[0] == i && !BareLiquid(l.item)
    {
      PickedAtTop(i, l, opts);
    }
  }

  /** What one pass of `select_items` gives for a tile entry: its selections, the entry as
    * updated, its answer (`NoRule` when it is skipped), the cache state and the drops. */
  datatype Chosen = Chosen(picked: seq<Location>, entry': Item, v: RuleState, memo: Memo, drops: seq<Item>)

  /** One pass of `select_items` for tile entry `i`. */
  function TileEntryPass(env: Env, opts: Options, m: Memo, i: nat, entry: Item): (o: Chosen)
    ensures o.entry' == entry.(contents := o.entry'.contents)
    ensures !TopAllowed(entry, opts) ==> o == Chosen([], entry, NoRule, m, [])
    ensures TopAllowed(entry, opts) ==> o.v == AutopickupRule(env, m, entry).v
    // a whitelisted entry is picked exactly when it is within the limits after emptying
    ensures o.v == Whitelisted ==> o.picked == if WithinLimits(o.entry', opts) then [Location([i], o.entry')] else []
    ensures forall l :: l in o.picked ==>
      |l.path| >= 1 && l.path[0] == i && WithinLimits(l.item, opts) && !BareLiquid(l.item)
  {
    if !TopAllowed(entry, opts) then Chosen([], entry, NoRule, m, [])
    else
      var a := AutopickupRule(env, m, entry);
      if a.v == Whitelisted then TileWhitelisted(env, opts, a.memo, i, entry)
      else TileUnlisted(env, opts, a.memo, i, entry, a.v)
  }

  /** A whitelisted tile entry: a container is emptied of what it does not keep; the entry
    * is picked when it is then within the limits. */
  function TileWhitelisted(env: Env, opts: Options, m: Memo, i: nat, entry: Item): (o: Chosen)
    requires !entry.liquid
    ensures o.entry' == entry.(contents := o.entry'.contents)
    ensures o.v == Whitelisted
    ensures o.picked == if WithinLimits(o.entry', opts) then [Location([i], o.entry')] else []
  {
    if entry.isContainer then
      var e := EmptiedTarget(env, m, entry.contents, entry.rigid);
      var emptied := entry.(contents := e.kept);
      Chosen(if WithinLimits(emptied, opts) then [Location([i], emptied)] else [], emptied, Whitelisted, e.memo, e.dropped)
    else Chosen(if WithinLimits(entry, opts) then [Location([i], entry)] else [], entry, Whitelisted, m, [])
  }

  /** A tile entry that is not whitelisted: a container with contents, or a tool with a
    * battery slot, is searched. */
  function TileUnlisted(env: Env, opts: Options, m: Memo, i: nat, entry: Item, v: RuleState): (o: Chosen)
    requires !entry.liquid
    ensures o.entry' == entry.(contents := o.entry'.contents)
    ensures o.v == v
    ensures forall l :: l in o.picked ==>
      |l.path| >= 1 && l.path[0] == i && WithinLimits(l.item, opts) && !BareLiquid(l.item)
  {
    if (entry.isContainer && entry.contents != []) || entry.batteryCapacity then
      var g := AutopickupItems(env, opts, m, [i], entry);
      assert !g.c'.liquid;
      NestedAtTop(i, g.r, g.c', opts);
      Chosen(g.r, g.c', v, g.memo, g.drops)
    else Chosen([], entry, v, m, [])
  }

  /** A pass over a tile entry never loses an entry of a settled cache. */
  lemma TileExtends(env: Env, opts: Options, m: Memo, i: nat, entry: Item)
    ensures Extends(m, TileEntryPass(env, opts, m, i, entry).memo)
  {
    if TopAllowed(entry, opts) {
      var a := AutopickupRule(env, m, entry);
      AskExtends(env, m, entry);
      var o := TileEntryPass(env, opts, m, i, entry);
      if a.v == Whitelisted && entry.isContainer {
        EmptiedExtends(env, a.memo, entry.contents, entry.rigid);
        ExtendsTransitive(m, a.memo, o.memo);
      } else if a.v != Whitelisted && ((entry.isContainer && entry.contents != []) || entry.batteryCapacity) {
        ItemsExtends(env, opts, a.memo, [i], entry);
        ExtendsTransitive(m, a.memo, o.memo);
      } else {
        assert o.memo == a.memo;
      }
    }
  }

  /** What `select_items` gives for a tile stack: the selections in tile order, the entries
    * as updated, one answer per entry, the cache state and the drops. */
  datatype Selection = Selection(result: seq<Location>, updated: seq<Item>, verdicts: seq<RuleState>, memo: Memo,
                                 drops: seq<Item>)

  /** `select_items` over the tile entries `ts`: the selections are the per-entry
    * selections, concatenated in tile order. */
  function SelectedItems(env: Env, opts: Options, m: Memo, ts: seq<Item>): (o: Selection)
    ensures |o.updated| == |ts| && |o.verdicts| == |ts|
  {
    if ts == [] then Selection([], [], [], m, [])
    else
      var n := |ts| - 1;
      var p := SelectedItems(env, opts, m, ts[..n]);
      SelectStep(p, TileEntryPass(env, opts, p.memo, n, ts[n]))
  }

  /** `select_items` changes only the contents of the tile entries, and leaves the entries
    * it skips alone without asking about them. */
  lemma {:induction false} SelectedEntries(env: Env, opts: Options, m: Memo, ts: seq<Item>)
    ensures var o := SelectedItems(env, opts, m, ts);
      && (forall k :: 0 <= k < |ts| ==> o.updated[k] == ts[k].(contents := o.updated[k].contents))
      && (forall k :: 0 <= k < |ts| && !TopAllowed(ts[k], opts) ==> o.verdicts[k] == NoRule && o.updated[k] == ts[k])
  {
    if ts != [] {
      var n := |ts| - 1;
      SelectedEntries(env, opts, m, ts[..n]);
      var p := SelectedItems(env, opts, m, ts[..n]);
      var c := TileEntryPass(env, opts, p.memo, n, ts[n]);
      var o := SelectedItems(env, opts, m, ts);
      assert o.updated == p.updated + [c.entry'] && o.verdicts == p.verdicts + [c.v];
      forall k | 0 <= k < |ts|
        ensures o.updated[k] == ts[k].(contents := o.updated[k].contents)
        ensures !TopAllowed(ts[k], opts) ==> o.verdicts[k] == NoRule && o.updated[k] == ts[k]
      {
        if k < n {
          assert ts[..n][k] == ts[k] && o.updated[k] == p.updated[k] && o.verdicts[k] == p.verdicts[k];
        }
      }
    }
  }

  /** Every selection of `select_items` lies under a tile entry it may take from, is within
    * the limits and is not a bare liquid; a whitelisted entry within the limits after
    * emptying is selected. */
  lemma {:induction false} SelectedPicks(env: Env, opts: Options, m: Memo, ts: seq<Item>)
    ensures var o := SelectedItems(env, opts, m, ts);
      && (forall l :: l in o.result ==>
            && |l.path| >= 1 && l.path[0] < |ts| && TopAllowed(ts[l.path[0]], opts)
            && WithinLimits(l.item, opts) && !BareLiquid(l.item))
      && (forall k :: 0 <= k < |ts| && o.verdicts[k] == Whitelisted && WithinLimits(o.updated[k], opts) ==>
            Location([k], o.updated[k]) in o.result)
  {
    if ts != [] {
      var n := |ts| - 1;
      SelectedPicks(env, opts, m, ts[..n]);
      var p := SelectedItems(env, opts, m, ts[..n]);
      var c := TileEntryPass(env, opts, p.memo, n, ts[n]);
      var o := SelectedItems(env, opts, m, ts);
      assert o.result == p.result + c.picked && o.updated == p.updated + [c.entry'] && o.verdicts == p.verdicts + [c.v];
      forall l | l in o.result
        ensures |l.path| >= 1 && l.path[0] < |ts| && TopAllowed(ts[l.path[0]], opts)
      {
        if l in p.result {
          assert ts[..n][l.path[0]] == ts[l.path[0]];
        }
      }
      forall k | 0 <= k < |ts| && o.verdicts[k] == Whitelisted && WithinLimits(o.updated[k], opts)
        ensures Location([k], o.updated[k]) in o.result
      {
        if k < n {
          assert o.updated[k] == p.updated[k] && o.verdicts[k] == p.verdicts[k];
        }
      }
    }
  }

  /** Adds the pass over one more tile entry. */
  function SelectStep(p: Selection, c: Chosen): Selection
  {
    Selection(p.result + c.picked, p.updated + [c.entry'], p.verdicts + [c.v], c.memo, p.drops + c.drops)
  }

  lemma SelectedStep(env: Env, opts: Options, m: Memo, ts: seq<Item>, i: nat)
    requires i < |ts|
    ensures var p := SelectedItems(env, opts, m, ts[..i]);
      SelectedItems(env, opts, m, ts[..i + 1]) == SelectStep(p, TileEntryPass(env, opts, p.memo, i, ts[i]))
  {
    assert ts[..i + 1][..i] == ts[..i];
  }

  /** `select_items` never loses an entry of a settled cache. */
  lemma {:induction false} SelectedExtends(env: Env, opts: Options, m: Memo, ts: seq<Item>)
    ensures Extends(m, SelectedItems(env, opts, m, ts).memo)
  {
    if ts != [] {
      var n := |ts| - 1;
      SelectedExtends(env, opts, m, ts[..n]);
      var p := SelectedItems(env, opts, m, ts[..n]);
      TileExtends(env, opts, p.memo, n, ts[n]);
      ExtendsTransitive(m, p.memo, TileEntryPass(env, opts, p.memo, n, ts[n]).memo);
    }
  }

  /** From a settled cache, a tile entry that is not skipped and whose name the cache
    * already classifies gets the cached answer. */
  lemma {:induction false} SelectedKnown(env: Env, opts: Options, m: Memo, ts: seq<Item>)
    requires Settled(m)
    ensures var o := SelectedItems(env, opts, m, ts);
      forall k :: 0 <= k < |ts| && TopAllowed(ts[k], opts) && ts[k].name in m.items ==> o.verdicts[k] == m.items[ts[k].name]
  {
    if ts != [] {
      var n := |ts| - 1;
      SelectedKnown(env, opts, m, ts[..n]);
      SelectedExtends(env, opts, m, ts[..n]);
      var p := SelectedItems(env, opts, m, ts[..n]);
      AskKnown(env, p.memo, ts[n]);
      assert forall k :: 0 <= k < n ==> ts[..n][k] == ts[k];
    }
  }

  /** Every selection paired with the quantity 0. */
  function WithCount(ls: seq<Location>): (ps: seq<(Location, int)>)
    ensures |ps| == |ls|
    ensures forall k :: 0 <= k < |ls| ==> ps[k] == (ls[k], 0)
  {
    if ls == [] then [] else WithCount(ls[..|ls| - 1]) + [(ls[|ls| - 1], 0)]
  }

  /** Pairing two runs of selections is pairing them one after the other. */
  lemma {:induction false} WithCountAppend(a: seq<Location>, b: seq<Location>)
    ensures WithCount(a + b) == WithCount(a) + WithCount(b)
  {
    if b != [] {
      var n := |b| - 1;
      assert a + b == (a + b[..n]) + [b[n]];
      WithCountAppend(a, b[..n]);
    }
  }

  /** Appends each of `picked` to `result` with quantity 0. */
  method AppendWithCount(result: seq<(Location, int)>, picked: seq<Location>) returns (result': seq<(Location, int)>)
    ensures result' == result + WithCount(picked)
  {
    result' := result;
    for j := 0 to |picked|
      invariant result' == result + WithCount(picked[..j])
    {
      assert picked[..j + 1][..j] == picked[..j];
      result' := result' + [(picked[j], 0)];
    }
    assert picked[..|picked|] == picked;
  }

  lemma TileStep(u: seq<Item>, ts: seq<Item>, i: nat, d1: seq<Item>, d2: seq<Item>, e: Item)
    requires |u| == i < |ts|
    ensures (u + ts[i..] + d1 + d2)[i := e] == (u + [e]) + ts[i + 1..] + (d1 + d2)
  {
    assert ts[i..] == [ts[i]] + ts[i + 1..];
  }

  /** `auto_pickup::select_items`: walk the tile's stack as it was on entry. The result is
    * the function's selections, each with quantity 0; the tile holds the updated entries
    * followed by everything dropped. */
  method SelectItems(s: PlayerSettings, tile: Tile, opts: Options, catalog: seq<ItemType>)
    returns (result: seq<(Location, int)>)
    modifies s.cache, tile
    ensures var o := SelectedItems(EnvOf(s, catalog), opts, old(MemoOf(s.cache)), old(tile.items));
      result == WithCount(o.result) && tile.items == o.updated + o.drops && MemoOf(s.cache) == o.memo
  {
    ghost var env := EnvOf(s, catalog);
    ghost var ts := tile.items;
    ghost var o := SelectedItems(env, opts, MemoOf(s.cache), []);
    result := [];
    var n := |tile.items|;
    for i := 0 to n
      invariant o == SelectedItems(env, opts, old(MemoOf(s.cache)), ts[..i])
      invariant result == WithCount(o.result) && MemoOf(s.cache) == o.memo
      invariant tile.items == o.updated + ts[i..] + o.drops
      invariant EnvOf(s, catalog) == env
    {
      SelectedStep(env, opts, old(MemoOf(s.cache)), ts, i);
      ghost var c := TileEntryPass(env, opts, o.memo, i, ts[i]);
      assert tile.items[i] == ts[i];
      var picked, updated := SelectEntry(s, tile, i, tile.items[i], opts, catalog);
      assert picked == c.picked && updated == c.entry' && MemoOf(s.cache) == c.memo;
      TileStep(o.updated, ts, i, o.drops, c.drops, updated);
      tile.items := tile.items[i := updated];
      result := AppendWithCount(result, picked);
      WithCountAppend(o.result, picked);
      o := SelectStep(o, c);
    }
    assert ts[..n] == ts && o.updated + ts[n..] == o.updated;
  }

  /** One pass of `select_items` for tile entry `i`. */
  method SelectEntry(s: PlayerSettings, tile: Tile, i: nat, entry: Item, opts: Options, catalog: seq<ItemType>)
    returns (picked: seq<Location>, entry': Item)
    modifies s.cache, tile
    ensures var o := TileEntryPass(EnvOf(s, catalog), opts, old(MemoOf(s.cache)), i, entry);
      picked == o.picked && entry' == o.entry' && tile.items == old(tile.items) + o.drops && MemoOf(s.cache) == o.memo
  {
    picked, entry' := [], entry;
    if !opts.pickupOwned && entry.owned {
      return;
    }
    if entry.liquid {
      return;
    }
    var state := GetAutopickupRule(s, entry, catalog);
    var isContainer := entry.isContainer && entry.contents != [];
    if state == Whitelisted {
      if entry.isContainer {
        entry' := EmptyAutopickupTarget(s, tile, entry, catalog);
      }
      if !WithinLimits(entry', opts) {
        return;
      }
      picked := [Location([i], entry')];
    } else if isContainer || entry.batteryCapacity {
      picked, entry' := GetAutopickupItems(s, tile, [i], entry, opts, catalog);
    }
  }
}
