/**
 * The narrow view of the item model that auto-pickup consumes: catalog entries, concrete
 * items with their contents, the auto-pickup options, and the weight/volume limit check.
 *
 * Weights are in grams and volumes in millilitres; the limits are options counted in units
 * of 50 g and 50 ml.
 */
module Items {

  /** A catalog entry (`itype`): its singular name `nname(1)` and its material names. */
  datatype ItemType = ItemType(name: string, materials: set<string>)

  /** A concrete item. `name` is `tname(1, false)`, `materials` the names of `made_of()`,
    * `weight`/`volume` the item's own, without contents; `rigid` is `all_pockets_rigid()`,
    * `sealed` is `any_pockets_sealed()`, `batteryCapacity` is `ammo_capacity(battery) > 0`,
    * `contents` is `all_items_top()`. */
  datatype Item = Item(
    name: string,
    materials: set<string>,
    weight: nat,
    volume: nat,
    zeroWeight: bool,
    noDrop: bool,
    owned: bool,
    liquid: bool,
    isContainer: bool,
    rigid: bool,
    sealed: bool,
    corpse: bool,
    batteryCapacity: bool,
    isBattery: bool,
    contents: seq<Item>)

  /** `item::weight()`: the item's own weight plus that of everything inside it. */
  function Weight(it: Item): nat
    decreases it, 1
  {
    it.weight + ContentsWeight(it.contents)
  }

  function ContentsWeight(cs: seq<Item>): nat
    decreases cs, 0
  {
    if cs == [] then 0 else Weight(cs[0]) + ContentsWeight(cs[1..])
  }

  /** `item::volume()`: a container whose pockets are all rigid keeps its volume; any other
    * item grows with its contents. */
  function Volume(it: Item): nat
    decreases it, 1
  {
    it.volume + if it.rigid then 0 else ContentsVolume(it.contents)
  }

  function ContentsVolume(cs: seq<Item>): nat
    decreases cs, 0
  {
    if cs == [] then 0 else Volume(cs[0]) + ContentsVolume(cs[1..])
  }

  /** The options the engine reads: `AUTO_PICKUP_OWNED`, `AUTO_PICKUP_WEIGHT_LIMIT` and
    * `AUTO_PICKUP_VOLUME_LIMIT`. */
  datatype Options = Options(pickupOwned: bool, weightLimit: int, volumeLimit: int)

  /** Size of one limit unit: 50 ml of volume, 50 g of weight. */
  const LimitUnit: nat := 50

  /** `within_autopickup_limits`. */
  predicate WithinLimits(it: Item, opts: Options)
  {
    && !(it.zeroWeight || it.noDrop)
    && (opts.volumeLimit <= 0 || Volume(it) <= opts.volumeLimit * LimitUnit)
    && (opts.weightLimit <= 0 || Weight(it) <= opts.weightLimit * LimitUnit)
  }

  /** A no-drop or zero-weight item is never within the limits. A limit of zero or less
    * switches its check off: any such limit behaves as 0, whatever the other limit is;
    * with both off only the flags decide. */
  lemma DisabledLimit(it: Item, opts: Options)
    ensures it.zeroWeight || it.noDrop ==> !WithinLimits(it, opts)
    ensures opts.volumeLimit <= 0 ==> (WithinLimits(it, opts) <==> WithinLimits(it, opts.(volumeLimit := 0)))
    ensures opts.weightLimit <= 0 ==> (WithinLimits(it, opts) <==> WithinLimits(it, opts.(weightLimit := 0)))
    ensures opts.volumeLimit <= 0 && opts.weightLimit <= 0 ==>
      (WithinLimits(it, opts) <==> !it.zeroWeight && !it.noDrop)
  {
  }

  /** Raising a positive limit never excludes an item that was within it. */
  lemma RaisedLimit(it: Item, opts: Options, volumeLimit: int, weightLimit: int)
    requires WithinLimits(it, opts)
    requires 0 < opts.volumeLimit <= volumeLimit && 0 < opts.weightLimit <= weightLimit
    ensures WithinLimits(it, opts.(volumeLimit := volumeLimit, weightLimit := weightLimit))
  {
    assert opts.volumeLimit * LimitUnit <= volumeLimit * LimitUnit;
    assert opts.weightLimit * LimitUnit <= weightLimit * LimitUnit;
  }

  /** Switching a limit off never excludes an item. */
  lemma SwitchedOffLimit(it: Item, opts: Options)
    requires WithinLimits(it, opts)
    ensures WithinLimits(it, opts.(volumeLimit := 0)) && WithinLimits(it, opts.(weightLimit := 0))
  {
  }

  /** The entries of `cs` whose flag in `keep` is set, in order. */
  function Select(cs: seq<Item>, keep: seq<bool>): (r: seq<Item>)
    requires |keep| == |cs|
    ensures |r| <= |cs|
  {
    if cs == [] then []
    else
      var n := |cs| - 1;
      assert cs == cs[..n] + [cs[n]];
      Select(cs[..n], keep[..n]) + if keep[n] then [cs[n]] else []
  }

  /** Selecting from one more entry. */
  lemma SelectStep(cs: seq<Item>, keep: seq<bool>, i: nat, b: bool)
    requires i < |cs| && |keep| == i
    ensures Select(cs[..i + 1], keep + [b]) == Select(cs[..i], keep) + if b then [cs[i]] else []
  {
    assert cs[..i + 1][..i] == cs[..i];
    assert (keep + [b])[..i] == keep;
  }

  /** The complementary flags. */
  function Negate(keep: seq<bool>): (r: seq<bool>)
    ensures |r| == |keep|
    ensures forall i :: 0 <= i < |keep| ==> r[i] == !keep[i]
  {
    seq(|keep|, i requires 0 <= i < |keep| => !keep[i])
  }

  /** What is kept and what is taken out are, together, exactly the original entries. */
  lemma {:induction false} SelectPartition(cs: seq<Item>, keep: seq<bool>)
    requires |keep| == |cs|
    ensures multiset(Select(cs, keep)) + multiset(Select(cs, Negate(keep))) == multiset(cs)
  {
    if cs != [] {
      var n := |cs| - 1;
      assert cs == cs[..n] + [cs[n]];
      assert Negate(keep)[..n] == Negate(keep[..n]);
      SelectPartition(cs[..n], keep[..n]);
    }
  }

  /** An entry is selected exactly when its flag is set: every flagged entry is in the
    * result and every entry of the result is a flagged one. */
  lemma {:induction false} SelectMembers(cs: seq<Item>, keep: seq<bool>)
    requires |keep| == |cs|
    ensures forall i :: 0 <= i < |cs| && keep[i] ==> cs[i] in Select(cs, keep)
    ensures forall x :: x in Select(cs, keep) ==> exists i :: 0 <= i < |cs| && keep[i] && cs[i] == x
  {
    if cs != [] {
      var n := |cs| - 1;
      SelectMembers(cs[..n], keep[..n]);
      assert forall i :: 0 <= i < n ==> cs[..n][i] == cs[i] && keep[..n][i] == keep[i];
    }
  }

  lemma {:induction false} ContentsWeightAppend(a: seq<Item>, b: seq<Item>)
    ensures ContentsWeight(a + b) == ContentsWeight(a) + ContentsWeight(b)
    ensures ContentsVolume(a + b) == ContentsVolume(a) + ContentsVolume(b)
  {
    if a == [] {
      assert a + b == b;
    } else {
      assert (a + b)[1..] == a[1..] + b;
      ContentsWeightAppend(a[1..], b);
    }
  }

  /** Taking entries out of a container never makes it heavier or bulkier. */
  lemma {:induction false} SelectLighter(cs: seq<Item>, keep: seq<bool>)
    requires |keep| == |cs|
    ensures ContentsWeight(Select(cs, keep)) <= ContentsWeight(cs)
    ensures ContentsVolume(Select(cs, keep)) <= ContentsVolume(cs)
  {
    if cs != [] {
      var n := |cs| - 1;
      assert cs == cs[..n] + [cs[n]];
      SelectLighter(cs[..n], keep[..n]);
      ContentsWeightAppend(cs[..n], [cs[n]]);
      ContentsWeightAppend(Select(cs[..n], keep[..n]), if keep[n] then [cs[n]] else []);
    }
  }

  /** A container within the limits stays within them when entries are taken out of it. */
  lemma RemovalKeepsLimits(c: Item, keep: seq<bool>, opts: Options)
    requires |keep| == |c.contents|
    requires WithinLimits(c, opts)
    ensures WithinLimits(c.(contents := Select(c.contents, keep)), opts)
  {
    SelectLighter(c.contents, keep);
  }
}
