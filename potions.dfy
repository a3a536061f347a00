/** Resource vectors and catalogue entities of the potion game, shared by the search engine
    (module Search) and the live game (module Game). */
module Potions {

  /** Four resource amounts, one per ingredient tier. Used both as holdings and as signed
      deltas (a casting or brewing price). The game stores them as `i8`; the model uses
      unbounded integers. */
  type Inventory = s: seq<int> | |s| == 4 witness [0, 0, 0, 0]

  /** A price is affordable when every holding stays strictly above the amount the price takes
      away. The test is strict: an axis whose price is 0 still needs a positive holding. */
  function CanAfford(inventory: Inventory, cost: Inventory): (r: bool)
    ensures r <==> forall k :: 0 <= k < 4 ==> inventory[k] > -cost[k]
  {
    inventory[0] > -cost[0] && inventory[1] > -cost[1] && inventory[2] > -cost[2] && inventory[3] > -cost[3]
  }

  /** The game's `cast`: adds a price to an inventory axis by axis. */
  function ApplyPrice(inventory: Inventory, cost: Inventory): (r: Inventory)
    ensures forall k :: 0 <= k < 4 ==> r[k] == inventory[k] + cost[k]
  {
    [inventory[0] + cost[0], inventory[1] + cost[1], inventory[2] + cost[2], inventory[3] + cost[3]]
  }

  /** Every axis of an inventory is strictly positive. */
  predicate AllPositive(inventory: Inventory)
  {
    forall k :: 0 <= k < 4 ==> inventory[k] > 0
  }

  /** Affordability says exactly that paying the price leaves every axis strictly positive. */
  lemma AffordableIffPositiveAfter(inventory: Inventory, cost: Inventory)
    ensures CanAfford(inventory, cost) <==> AllPositive(ApplyPrice(inventory, cost))
  {
  }

  /** The price applied `times` times in a row, as the casting loop of the live game does. */
  function ScaledPrice(inventory: Inventory, cost: Inventory, times: nat): (r: Inventory)
    ensures forall k :: 0 <= k < 4 ==> r[k] == inventory[k] + times * cost[k]
  {
    if times == 0 then inventory else ApplyPrice(ScaledPrice(inventory, cost, times - 1), cost)
  }

  /** A spell may be cast several times in one turn exactly when it consumes something. */
  function IsRepeatable(price: Inventory): (r: bool)
    ensures r <==> exists k :: 0 <= k < 4 && price[k] < 0
  {
    price[0] < 0 || price[1] < 0 || price[2] < 0 || price[3] < 0
  }

  datatype SpellDescriptor = SpellDescriptor(castingPrice: Inventory, actionId: nat, repeatable: bool)

  /** A spell the player owns; `exhausted` once cast, until the next Wait. */
  datatype Spell = Spell(descriptor: SpellDescriptor, exhausted: bool)

  /** A spell on offer, with the bonus it has accrued while it waited. */
  datatype LearnableSpell = LearnableSpell(descriptor: SpellDescriptor, reward: nat)

  datatype Order = Order(brewingPrice: Inventory, reward: nat, actionId: nat)

  datatype Move = Wait | Brew(actionId: nat) | Learn(actionId: nat) | Cast(actionId: nat, times: nat)

  function OrderId(o: Order): nat { o.actionId }
  function OfferId(l: LearnableSpell): nat { l.descriptor.actionId }
  function SpellId(s: Spell): nat { s.descriptor.actionId }

  /** The effect of Wait on the owned spells: every one becomes available again. */
  function Refreshed(spells: seq<Spell>): (r: seq<Spell>)
    ensures |r| == |spells|
    ensures forall k {:trigger r[k]} :: 0 <= k < |r| ==> r[k] == Spell(spells[k].descriptor, false)
  {
    if spells == [] then [] else [spells[0].(exhausted := false)] + Refreshed(spells[1..])
  }

  /** Refreshing is idempotent: two Waits leave the spells as one does. */
  lemma RefreshedIdempotent(spells: seq<Spell>)
    ensures Refreshed(Refreshed(spells)) == Refreshed(spells)
  {
  }

  /** The learning bonus: every offer in front of position `n` gains one reward point, one
      position after the other. */
  function BumpRewards(offers: seq<LearnableSpell>, n: nat): (r: seq<LearnableSpell>)
    requires n <= |offers|
    ensures |r| == |offers|
    ensures forall k {:trigger r[k]} :: 0 <= k < |r| ==> r[k].descriptor == offers[k].descriptor
    ensures forall k {:trigger r[k]} :: 0 <= k < |r| ==> r[k].reward == offers[k].reward + (if k < n then 1 else 0)
  {
    if n == 0 then offers
    else
      var bumped := BumpRewards(offers, n - 1);
      bumped[n - 1 := bumped[n - 1].(reward := bumped[n - 1].reward + 1)]
  }

  /** Rust's `Vec::swap_remove`: the element at `i` is removed and the last element takes its
      slot; every other element keeps its position. */
  function SwapRemove<T>(s: seq<T>, i: nat): (r: seq<T>)
    requires i < |s|
    ensures |r| == |s| - 1
    ensures forall j {:trigger r[j]} :: 0 <= j < |r| && j != i ==> r[j] == s[j]
    ensures i < |r| ==> r[i] == s[|s| - 1]
    ensures multiset(r) + multiset{s[i]} == multiset(s)
  {
    if i == |s| - 1 then
      assert s == s[..i] + [s[i]];
      s[..i]
    else
      assert s == s[..i] + [s[i]] + s[i + 1..|s| - 1] + [s[|s| - 1]];
      s[..i] + [s[|s| - 1]] + s[i + 1..|s| - 1]
  }
}
