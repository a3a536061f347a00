/** The move engine of the potion game: successor generation, best-first search over an arena
    of search nodes, and the reconstruction of the chosen move (rust/src/solution.rs). */
module Search {
  import opened Wrappers
  import opened Potions

  /** One hypothetical situation of the player. The engine never sees the queued orders and
      offers: only the visible window. */
  datatype PlayerState = PlayerState(
    inventory: Inventory,
    spells: seq<Spell>,
    learnableSpells: seq<LearnableSpell>,
    orders: seq<Order>,
    potionsBrewed: nat,
    score: nat,
    moves: nat)

  datatype SearchMove = GameMove(move: Move) | Initial

  /** A node of the search tree. The tree is kept as an arena (a sequence of nodes) and
      `previous` is the index of the parent node in that arena. */
  datatype SearchNode = SearchNode(lastMove: SearchMove, state: PlayerState, previous: Option<nat>)

  /** The search budget of `get_move`: the step counter stops the search once it exceeds it. */
  const SearchBudget: nat := 1000

  /** `get_state_score`, the estimate the frontier is ordered by: the score a state has
      reached so far. */
  function StateScore(state: PlayerState): (r: int)
    ensures r == state.score && r >= 0
  {
    state.score
  }

  function EstimatedScore(n: SearchNode): int { StateScore(n.state) }

  datatype Ordering = Less | Equal | Greater

  /** The ordering of search nodes. The engine compares floating-point estimates with a
      tolerance of 1e-11; estimates are integer scores here, so "within the tolerance" is
      equality. */
  function Compare(a: SearchNode, b: SearchNode): (r: Ordering)
    ensures r == Greater <==> EstimatedScore(a) > EstimatedScore(b)
    ensures r == Less <==> EstimatedScore(a) < EstimatedScore(b)
    ensures r == Equal <==> EstimatedScore(a) == EstimatedScore(b)
  {
    var diff := EstimatedScore(b) - EstimatedScore(a);
    if diff == 0 then Equal else if diff < 0 then Greater else Less
  }

  /** `make_initial_search_state`: the root holds the snapshot, has no parent and no move. */
  function Root(state: PlayerState): (r: SearchNode)
    ensures r.lastMove == Initial && r.previous == None && r.state == state
    ensures EstimatedScore(r) == state.score
  {
    SearchNode(Initial, state, None)
  }

  // ---------------------------------------------------------------------------------------
  // Successor constructors. Each one works on a copy of the parent's state.

  /** Brewing the order `order` found at position `index` of the open orders. */
  function MakeBrew(previous: nat, state: PlayerState, index: nat, order: Order): (r: Option<SearchNode>)
    requires index < |state.orders|
    ensures r.Some? <==> CanAfford(state.inventory, order.brewingPrice)
    ensures r.Some? ==> r.value.previous == Some(previous) && r.value.lastMove == GameMove(Brew(order.actionId))
  {
    if !CanAfford(state.inventory, order.brewingPrice) then None
    else
      var s := state.(
        inventory := ApplyPrice(state.inventory, order.brewingPrice),
        potionsBrewed := state.potionsBrewed + 1,
        score := state.score + order.reward,
        orders := SwapRemove(state.orders, index));
      Some(SearchNode(GameMove(Brew(order.actionId)), s, Some(previous)))
  }

  /** Casting `spell`, the owned spell at position `index`, with multiplier `times`. The price
      is applied once whatever `times` is; only the move records the multiplier. */
  function MakeCast(previous: nat, state: PlayerState, index: nat, spell: Spell, times: nat): (r: Option<SearchNode>)
    requires index < |state.spells|
    ensures r.Some? <==>
      && !spell.exhausted
      && !(times > 1 && !spell.descriptor.repeatable)
      && CanAfford(state.inventory, spell.descriptor.castingPrice)
    ensures r.Some? ==>
      r.value.previous == Some(previous) && r.value.lastMove == GameMove(Cast(spell.descriptor.actionId, times))
  {
    if spell.exhausted then None
    else if times > 1 && !spell.descriptor.repeatable then None
    else if !CanAfford(state.inventory, spell.descriptor.castingPrice) then None
    else
      var s := state.(
        inventory := ApplyPrice(state.inventory, spell.descriptor.castingPrice),
        spells := state.spells[index := state.spells[index].(exhausted := true)]);
      Some(SearchNode(GameMove(Cast(spell.descriptor.actionId, times)), s, Some(previous)))
  }

  /** The price of learning the offer at position `index`: one unit of the first resource per
      offer in front of it. */
  function LearnPrice(index: nat): (r: Inventory)
    ensures r[0] == -(index as int) && r[1] == 0 && r[2] == 0 && r[3] == 0
  {
    [-(index as int), 0, 0, 0]
  }

  /** Learning the offer at `index` is affordable exactly when the first holding exceeds the
      index and every other holding is positive. */
  lemma LearnAffordable(inventory: Inventory, index: nat)
    ensures CanAfford(inventory, LearnPrice(index)) <==>
      inventory[0] > index && inventory[1] > 0 && inventory[2] > 0 && inventory[3] > 0
  {
  }

  /** Learning `learnable`, the offer at position `index`. */
  function MakeLearn(previous: nat, state: PlayerState, index: nat, learnable: LearnableSpell): (r: Option<SearchNode>)
    requires index < |state.learnableSpells|
    ensures r.Some? <==> CanAfford(state.inventory, LearnPrice(index))
    ensures r.Some? ==>
      r.value.previous == Some(previous) && r.value.lastMove == GameMove(Learn(learnable.descriptor.actionId))
  {
    if !CanAfford(state.inventory, LearnPrice(index)) then None
    else
      var refund: Inventory := [learnable.reward - index, 0, 0, 0];
      var s := state.(
        inventory := ApplyPrice(state.inventory, refund),
        spells := state.spells + [Spell(learnable.descriptor, false)],
        learnableSpells := BumpRewards(SwapRemove(state.learnableSpells, index), index));
      Some(SearchNode(GameMove(Learn(learnable.descriptor.actionId)), s, Some(previous)))
  }

  /** Waiting: every owned spell becomes available again. Always possible. */
  function MakeWait(previous: nat, state: PlayerState): (r: Option<SearchNode>)
    ensures r.Some? && r.value.previous == Some(previous) && r.value.lastMove == GameMove(Wait)
    ensures r.value.state == state.(spells := Refreshed(state.spells))
  {
    Some(SearchNode(GameMove(Wait), state.(spells := Refreshed(state.spells)), Some(previous)))
  }

  // ---------------------------------------------------------------------------------------
  // Properties of the successor constructors.

  /** The brewing child has gained the reward and one potion, has paid the brewing price, and
      has lost exactly the brewed order, the last order taking its slot; nothing else changes. */
  lemma BrewEffect(previous: nat, state: PlayerState, index: nat, order: Order)
    requires index < |state.orders|
    ensures var r := MakeBrew(previous, state, index, order);
      r.Some? ==> var s := r.value.state;
      && s.score == state.score + order.reward
      && s.potionsBrewed == state.potionsBrewed + 1
      && (forall k :: 0 <= k < 4 ==> s.inventory[k] == state.inventory[k] + order.brewingPrice[k])
      && multiset(s.orders) + multiset{state.orders[index]} == multiset(state.orders)
      && s.orders == SwapRemove(state.orders, index)
      && s.spells == state.spells && s.learnableSpells == state.learnableSpells && s.moves == state.moves
  {
  }

  /** The casting child has paid the casting price once, whatever the multiplier, and only the
      spell at `index` has become exhausted; nothing else changes. */
  lemma CastEffect(previous: nat, state: PlayerState, index: nat, spell: Spell, times: nat)
    requires index < |state.spells|
    ensures var r := MakeCast(previous, state, index, spell, times);
      r.Some? ==> var s := r.value.state;
      && (forall k :: 0 <= k < 4 ==> s.inventory[k] == state.inventory[k] + spell.descriptor.castingPrice[k])
      && |s.spells| == |state.spells|
      && s.spells[index] == Spell(state.spells[index].descriptor, true)
      && (forall k :: 0 <= k < |s.spells| && k != index ==> s.spells[k] == state.spells[k])
      && s.orders == state.orders && s.learnableSpells == state.learnableSpells
      && s.score == state.score && s.potionsBrewed == state.potionsBrewed && s.moves == state.moves
  {
  }

  /** The learning child has paid `index` units of the first resource and collected the
      offer's reward, owns the learned spell unexhausted, and its offers are the parent's with
      the learned one swap-removed and one reward point more for every offer in front of it. */
  lemma LearnEffect(previous: nat, state: PlayerState, index: nat, learnable: LearnableSpell)
    requires index < |state.learnableSpells|
    ensures var r := MakeLearn(previous, state, index, learnable);
      r.Some? ==> var s := r.value.state;
      && s.inventory[0] == state.inventory[0] + learnable.reward - index
      && (forall k :: 1 <= k < 4 ==> s.inventory[k] == state.inventory[k])
      && s.spells == state.spells + [Spell(learnable.descriptor, false)]
      && |s.learnableSpells| == |state.learnableSpells| - 1
      && (forall k :: 0 <= k < index ==>
            s.learnableSpells[k] == LearnableSpell(state.learnableSpells[k].descriptor, state.learnableSpells[k].reward + 1))
      && (forall k :: index < k < |s.learnableSpells| ==> s.learnableSpells[k] == state.learnableSpells[k])
      && (index < |s.learnableSpells| ==> s.learnableSpells[index] == state.learnableSpells[|state.learnableSpells| - 1])
      && s.orders == state.orders
      && s.score == state.score && s.potionsBrewed == state.potionsBrewed && s.moves == state.moves
  {
  }

  /** A spell cast in a child cannot be cast again from that child, whatever the multiplier. */
  lemma CastExhausts(previous: nat, state: PlayerState, index: nat, times: nat, next: nat, again: nat)
    requires index < |state.spells|
    requires MakeCast(previous, state, index, state.spells[index], times).Some?
    ensures var child := MakeCast(previous, state, index, state.spells[index], times).value.state;
      MakeCast(next, child, index, child.spells[index], again).None?
  {
  }

  /** Only a repeatable spell may be cast with a multiplier above one. */
  lemma RepeatableGating(previous: nat, state: PlayerState, index: nat, spell: Spell, times: nat)
    requires index < |state.spells| && times > 1
    ensures MakeCast(previous, state, index, spell, times).Some? <==>
      spell.descriptor.repeatable && MakeCast(previous, state, index, spell, 1).Some?
  {
  }

  /** Waiting twice in a row leaves the same state as waiting once. */
  lemma WaitIdempotent(previous: nat, next: nat, state: PlayerState)
    ensures MakeWait(next, MakeWait(previous, state).value.state).value.state == MakeWait(previous, state).value.state
  {
    RefreshedIdempotent(state.spells);
  }

  // ---------------------------------------------------------------------------------------
  // The children pushed when a node is expanded, in the order `do_search` pushes them.

  function Somes(o: Option<SearchNode>): seq<SearchNode>
  {
    if o.Some? then [o.value] else []
  }

  function BrewChildren(p: nat, s: PlayerState, n: nat): seq<SearchNode>
    requires n <= |s.orders|
  {
    if n == 0 then [] else BrewChildren(p, s, n - 1) + Somes(MakeBrew(p, s, n - 1, s.orders[n - 1]))
  }

  function LearnChildren(p: nat, s: PlayerState, n: nat): seq<SearchNode>
    requires n <= |s.learnableSpells|
  {
    if n == 0 then [] else LearnChildren(p, s, n - 1) + Somes(MakeLearn(p, s, n - 1, s.learnableSpells[n - 1]))
  }

  function CastChildren(p: nat, s: PlayerState, n: nat): seq<SearchNode>
    requires n <= |s.spells|
  {
    if n == 0 then [] else CastChildren(p, s, n - 1) + SpellCasts(p, s, n - 1)
  }

  /** The children casting owned spell `i` once, twice and three times. */
  function SpellCasts(p: nat, s: PlayerState, i: nat): seq<SearchNode>
    requires i < |s.spells|
  {
    Somes(MakeCast(p, s, i, s.spells[i], 1))
    + Somes(MakeCast(p, s, i, s.spells[i], 2))
    + Somes(MakeCast(p, s, i, s.spells[i], 3))
  }

  /** All children of the node at arena index `p` with state `s`. Wait is not generated. */
  function Children(p: nat, s: PlayerState): seq<SearchNode>
  {
    BrewChildren(p, s, |s.orders|) + LearnChildren(p, s, |s.learnableSpells|) + CastChildren(p, s, |s.spells|)
  }

  // ---------------------------------------------------------------------------------------
  // What every explored state shares with the snapshot the search started from.

  function OrderIds(orders: seq<Order>): set<nat>
  {
    set o | o in orders :: o.actionId
  }

  function OfferDescriptors(offers: seq<LearnableSpell>): set<SpellDescriptor>
  {
    set l | l in offers :: l.descriptor
  }

  function SpellDescriptors(spells: seq<Spell>): set<SpellDescriptor>
  {
    set x | x in spells :: x.descriptor
  }

  function DescriptorIds(ds: set<SpellDescriptor>): set<nat>
  {
    set d | d in ds :: d.actionId
  }

  /** Every order, offer and spell of `s` comes from the snapshot `root`: orders and offers
      only disappear, and a learned spell was on offer in the snapshot. */
  predicate Within(root: PlayerState, s: PlayerState)
  {
    && (forall o :: o in s.orders ==> o in root.orders)
    && OfferDescriptors(s.learnableSpells) <= OfferDescriptors(root.learnableSpells)
    && SpellDescriptors(s.spells) <= SpellDescriptors(root.spells) + OfferDescriptors(root.learnableSpells)
  }

  /** A move names an order, offer or spell of the snapshot `root`, with a multiplier of 1 to 3. */
  predicate Refers(root: PlayerState, m: Move)
  {
    match m
    case Wait => true
    case Brew(id) => id in OrderIds(root.orders)
    case Learn(id) => id in DescriptorIds(OfferDescriptors(root.learnableSpells))
    case Cast(id, times) =>
      1 <= times <= 3
      && id in DescriptorIds(SpellDescriptors(root.spells) + OfferDescriptors(root.learnableSpells))
  }

  /** What holds of every child `c` generated from state `s` at arena index `p`. */
  predicate GoodChild(root: PlayerState, p: nat, s: PlayerState, c: SearchNode)
  {
    && c.previous == Some(p)
    && c.lastMove.GameMove?
    && c.lastMove.move != Wait
    && Refers(root, c.lastMove.move)
    && Within(root, c.state)
    && c.state.score >= s.score
    && AllPositive(c.state.inventory)
  }

  /** Every node of `cs` is a good child of state `s` at index `p`. */
  predicate AllGood(root: PlayerState, p: nat, s: PlayerState, cs: seq<SearchNode>)
  {
    forall i :: 0 <= i < |cs| ==> GoodChild(root, p, s, cs[i])
  }

  lemma AllGoodAppend(root: PlayerState, p: nat, s: PlayerState, a: seq<SearchNode>, b: seq<SearchNode>)
    requires AllGood(root, p, s, a) && AllGood(root, p, s, b)
    ensures AllGood(root, p, s, a + b)
  {
    forall i | 0 <= i < |a + b|
      ensures GoodChild(root, p, s, (a + b)[i])
    {
      if i >= |a| {
        assert (a + b)[i] == b[i - |a|];
      }
    }
  }

  lemma WithinRefl(s: PlayerState)
    ensures Within(s, s)
  {
  }

  lemma BrewChildGood(root: PlayerState, p: nat, s: PlayerState, index: nat)
    requires index < |s.orders| && Within(root, s)
    ensures AllGood(root, p, s, Somes(MakeBrew(p, s, index, s.orders[index])))
  {
    var o := s.orders[index];
    var r := MakeBrew(p, s, index, o);
    if r.Some? {
      var c := r.value;
      assert o.actionId in OrderIds(root.orders);
      forall x | x in c.state.orders ensures x in root.orders {
        assert multiset(c.state.orders)[x] > 0;
        assert x in s.orders;
      }
      AffordableIffPositiveAfter(s.inventory, o.brewingPrice);
      assert GoodChild(root, p, s, c);
    }
  }

  lemma {:induction false} BrewChildrenGood(root: PlayerState, p: nat, s: PlayerState, n: nat)
    requires n <= |s.orders| && Within(root, s)
    ensures AllGood(root, p, s, BrewChildren(p, s, n))
  {
    if n > 0 {
      BrewChildrenGood(root, p, s, n - 1);
      BrewChildGood(root, p, s, n - 1);
      AllGoodAppend(root, p, s, BrewChildren(p, s, n - 1), Somes(MakeBrew(p, s, n - 1, s.orders[n - 1])));
    }
  }

  lemma LearnChildGood(root: PlayerState, p: nat, s: PlayerState, index: nat)
    requires index < |s.learnableSpells| && Within(root, s)
    ensures AllGood(root, p, s, Somes(MakeLearn(p, s, index, s.learnableSpells[index])))
  {
    var l := s.learnableSpells[index];
    var r := MakeLearn(p, s, index, l);
    if r.Some? {
      var c := r.value;
      assert l.descriptor in OfferDescriptors(s.learnableSpells);
      assert l.descriptor.actionId in DescriptorIds(OfferDescriptors(root.learnableSpells));
      assert c.state.learnableSpells == BumpRewards(SwapRemove(s.learnableSpells, index), index);
      RemainingOffers(s.learnableSpells, index);
      assert c.state.spells == s.spells + [Spell(l.descriptor, false)];
      LearnedSpells(root, s.spells, l.descriptor);
      assert GoodChild(root, p, s, c);
    }
  }

  /** The offers left after learning are among the offers before. */
  lemma RemainingOffers(offers: seq<LearnableSpell>, index: nat)
    requires index < |offers|
    ensures OfferDescriptors(BumpRewards(SwapRemove(offers, index), index)) <= OfferDescriptors(offers)
  {
    var removed := SwapRemove(offers, index);
    var bumped := BumpRewards(removed, index);
    forall d | d in OfferDescriptors(bumped)
      ensures d in OfferDescriptors(offers)
    {
      var x :| x in bumped && x.descriptor == d;
      var k :| 0 <= k < |bumped| && bumped[k] == x;
      assert removed[k].descriptor == d;
      assert multiset(removed)[removed[k]] > 0;
      assert removed[k] in offers;
    }
  }

  /** A spell learned from an offer of the snapshot keeps the owned spells within it. */
  lemma LearnedSpells(root: PlayerState, spells: seq<Spell>, d: SpellDescriptor)
    requires SpellDescriptors(spells) <= SpellDescriptors(root.spells) + OfferDescriptors(root.learnableSpells)
    requires d in OfferDescriptors(root.learnableSpells)
    ensures SpellDescriptors(spells + [Spell(d, false)]) <= SpellDescriptors(root.spells) + OfferDescriptors(root.learnableSpells)
  {
    forall e | e in SpellDescriptors(spells + [Spell(d, false)])
      ensures e in SpellDescriptors(root.spells) + OfferDescriptors(root.learnableSpells)
    {
      var x :| x in spells + [Spell(d, false)] && x.descriptor == e;
      if x in spells {
        assert e in SpellDescriptors(spells);
      }
    }
  }

  lemma {:induction false} LearnChildrenGood(root: PlayerState, p: nat, s: PlayerState, n: nat)
    requires n <= |s.learnableSpells| && Within(root, s)
    ensures AllGood(root, p, s, LearnChildren(p, s, n))
  {
    if n > 0 {
      LearnChildrenGood(root, p, s, n - 1);
      LearnChildGood(root, p, s, n - 1);
      AllGoodAppend(root, p, s, LearnChildren(p, s, n - 1), Somes(MakeLearn(p, s, n - 1, s.learnableSpells[n - 1])));
    }
  }

  lemma CastChildGood(root: PlayerState, p: nat, s: PlayerState, index: nat, times: nat)
    requires index < |s.spells| && Within(root, s) && 1 <= times <= 3
    ensures AllGood(root, p, s, Somes(MakeCast(p, s, index, s.spells[index], times)))
  {
    var sp := s.spells[index];
    var r := MakeCast(p, s, index, sp, times);
    if r.Some? {
      var c := r.value;
      assert sp.descriptor in SpellDescriptors(s.spells);
      assert sp.descriptor.actionId in DescriptorIds(SpellDescriptors(root.spells) + OfferDescriptors(root.learnableSpells));
      forall d | d in SpellDescriptors(c.state.spells)
        ensures d in SpellDescriptors(s.spells)
      {
        var x :| x in c.state.spells && x.descriptor == d;
        var k :| 0 <= k < |c.state.spells| && c.state.spells[k] == x;
        assert s.spells[k].descriptor == d;
      }
      AffordableIffPositiveAfter(s.inventory, sp.descriptor.castingPrice);
      assert GoodChild(root, p, s, c);
    }
  }

  lemma {:induction false} CastChildrenGood(root: PlayerState, p: nat, s: PlayerState, n: nat)
    requires n <= |s.spells| && Within(root, s)
    ensures AllGood(root, p, s, CastChildren(p, s, n))
  {
    if n > 0 {
      CastChildrenGood(root, p, s, n - 1);
      SpellCastsGood(root, p, s, n - 1);
      AllGoodAppend(root, p, s, CastChildren(p, s, n - 1), SpellCasts(p, s, n - 1));
    }
  }

  lemma SpellCastsGood(root: PlayerState, p: nat, s: PlayerState, i: nat)
    requires i < |s.spells| && Within(root, s)
    ensures AllGood(root, p, s, SpellCasts(p, s, i))
  {
    CastChildGood(root, p, s, i, 1);
    CastChildGood(root, p, s, i, 2);
    CastChildGood(root, p, s, i, 3);
    var once, twice, thrice := Somes(MakeCast(p, s, i, s.spells[i], 1)), Somes(MakeCast(p, s, i, s.spells[i], 2)),
      Somes(MakeCast(p, s, i, s.spells[i], 3));
    AllGoodAppend(root, p, s, once, twice);
    AllGoodAppend(root, p, s, once + twice, thrice);
  }

  /** Every child generated from a state drawn from the snapshot is again drawn from it, is
      linked to its parent, records a move naming the snapshot, does not lose score and holds
      a strictly positive amount of every resource. */
  lemma ChildrenGood(root: PlayerState, p: nat, s: PlayerState)
    requires Within(root, s)
    ensures forall c :: c in Children(p, s) ==> GoodChild(root, p, s, c)
  {
    var brews, learns, casts := BrewChildren(p, s, |s.orders|), LearnChildren(p, s, |s.learnableSpells|), CastChildren(p, s, |s.spells|);
    BrewChildrenGood(root, p, s, |s.orders|);
    LearnChildrenGood(root, p, s, |s.learnableSpells|);
    CastChildrenGood(root, p, s, |s.spells|);
    AllGoodAppend(root, p, s, brews, learns);
    AllGoodAppend(root, p, s, brews + learns, casts);
  }

  // ---------------------------------------------------------------------------------------
  // The search tree and its frontier.

  /** The shape of a search tree: node 0 is the initial node, and every other node records a
      game move and links to a parent that comes before it. */
  predicate Linked(arena: seq<SearchNode>)
  {
    && |arena| > 0
    && arena[0].lastMove.Initial? && arena[0].previous.None?
    && (forall k :: 0 < k < |arena| ==>
          arena[k].previous.Some? && arena[k].previous.value < k && arena[k].lastMove.GameMove?)
  }

  /** The arena is a search tree rooted at `root`, and every node but the root is a good child
      of its parent. */
  predicate Tree(root: PlayerState, arena: seq<SearchNode>)
  {
    && Linked(arena)
    && arena[0] == Root(root)
    && (forall k :: 0 < k < |arena| ==>
          GoodChild(root, arena[k].previous.value, arena[arena[k].previous.value].state, arena[k]))
    && (forall k :: 0 <= k < |arena| ==> Within(root, arena[k].state))
  }

  /** Every node but the root is one of the children generated from its parent. */
  predicate Generated(arena: seq<SearchNode>)
  {
    forall k :: 0 < k < |arena| && arena[k].previous.Some? && arena[k].previous.value < k ==>
      arena[k] in Children(arena[k].previous.value, arena[arena[k].previous.value].state)
  }

  /** `push` in the engine: a generated child, if any, is added to the tree and to the frontier. */
  method Push(arena: seq<SearchNode>, frontier: seq<nat>, x: Option<SearchNode>)
    returns (arena': seq<SearchNode>, frontier': seq<nat>)
    ensures arena' == arena + Somes(x)
    ensures forall j :: j in frontier' <==> j in frontier || |arena| <= j < |arena'|
    ensures frontier' == frontier + Range(|arena|, |arena'|)
  {
    arena', frontier' := arena, frontier;
    if x.Some? {
      arena', frontier' := arena + [x.value], frontier + [|arena|];
    }
  }

  /** Pushes the brewing child of every open order of `s`, in order. */
  method PushBrews(arena: seq<SearchNode>, frontier: seq<nat>, p: nat, s: PlayerState)
    returns (arena': seq<SearchNode>, frontier': seq<nat>)
    ensures arena' == arena + BrewChildren(p, s, |s.orders|)
    ensures forall j :: j in frontier' <==> j in frontier || |arena| <= j < |arena'|
    ensures frontier' == frontier + Range(|arena|, |arena'|)
  {
    arena', frontier' := arena, frontier;
    for i := 0 to |s.orders|
      invariant arena' == arena + BrewChildren(p, s, i)
      invariant forall j :: j in frontier' <==> j in frontier || |arena| <= j < |arena'|
      invariant frontier' == frontier + Range(|arena|, |arena'|)
    {
      var child := MakeBrew(p, s, i, s.orders[i]);
      ghost var mid := |arena'|;
      arena', frontier' := Push(arena', frontier', child);
      RangeAppend(frontier, |arena|, mid, |arena'|);
      AppendAssoc(arena, BrewChildren(p, s, i), Somes(child));
    }
  }

  /** Pushes the learning child of every offer of `s`, in order. */
  method PushLearns(arena: seq<SearchNode>, frontier: seq<nat>, p: nat, s: PlayerState)
    returns (arena': seq<SearchNode>, frontier': seq<nat>)
    ensures arena' == arena + LearnChildren(p, s, |s.learnableSpells|)
    ensures forall j :: j in frontier' <==> j in frontier || |arena| <= j < |arena'|
    ensures frontier' == frontier + Range(|arena|, |arena'|)
  {
    arena', frontier' := arena, frontier;
    for i := 0 to |s.learnableSpells|
      invariant arena' == arena + LearnChildren(p, s, i)
      invariant forall j :: j in frontier' <==> j in frontier || |arena| <= j < |arena'|
      invariant frontier' == frontier + Range(|arena|, |arena'|)
    {
      var child := MakeLearn(p, s, i, s.learnableSpells[i]);
      ghost var mid := |arena'|;
      arena', frontier' := Push(arena', frontier', child);
      RangeAppend(frontier, |arena|, mid, |arena'|);
      AppendAssoc(arena, LearnChildren(p, s, i), Somes(child));
    }
  }

  /** Pushes the casting children of every owned spell of `s`, with multipliers 1, 2 and 3. */
  method PushCasts(arena: seq<SearchNode>, frontier: seq<nat>, p: nat, s: PlayerState)
    returns (arena': seq<SearchNode>, frontier': seq<nat>)
    ensures arena' == arena + CastChildren(p, s, |s.spells|)
    ensures forall j :: j in frontier' <==> j in frontier || |arena| <= j < |arena'|
    ensures frontier' == frontier + Range(|arena|, |arena'|)
  {
    arena', frontier' := arena, frontier;
    for i := 0 to |s.spells|
      invariant arena' == arena + CastChildren(p, s, i)
      invariant forall j :: j in frontier' <==> j in frontier || |arena| <= j < |arena'|
      invariant frontier' == frontier + Range(|arena|, |arena'|)
    {
      ghost var mid := |arena'|;
      arena', frontier' := PushSpellCasts(arena', frontier', p, s, i);
      RangeAppend(frontier, |arena|, mid, |arena'|);
      AppendAssoc(arena, CastChildren(p, s, i), SpellCasts(p, s, i));
    }
  }

  /** Pushes the children casting owned spell `i` with multipliers 1, 2 and 3. */
  method PushSpellCasts(arena: seq<SearchNode>, frontier: seq<nat>, p: nat, s: PlayerState, i: nat)
    returns (arena': seq<SearchNode>, frontier': seq<nat>)
    requires i < |s.spells|
    ensures arena' == arena + SpellCasts(p, s, i)
    ensures forall j :: j in frontier' <==> j in frontier || |arena| <= j < |arena'|
    ensures frontier' == frontier + Range(|arena|, |arena'|)
  {
    var c1 := MakeCast(p, s, i, s.spells[i], 1);
    var c2 := MakeCast(p, s, i, s.spells[i], 2);
    var c3 := MakeCast(p, s, i, s.spells[i], 3);
    var a1, f1 := Push(arena, frontier, c1);
    var a2, f2 := Push(a1, f1, c2);
    arena', frontier' := Push(a2, f2, c3);
    RangeAppend(frontier, |arena|, |a1|, |a2|);
    RangeAppend(frontier, |arena|, |a2|, |arena'|);
    AppendThree(arena, Somes(c1), Somes(c2), Somes(c3));
  }

  /** The indices `a`, `a + 1`, ..., `b - 1`, in order. */
  function Range(a: nat, b: nat): (r: seq<nat>)
    requires a <= b
    ensures |r| == b - a && forall k :: 0 <= k < |r| ==> r[k] == a + k
  {
    seq(b - a, k requires 0 <= k < b - a => a + k)
  }

  /** Pushing index runs one after another pushes their union. */
  lemma RangeAppend(f: seq<nat>, a: nat, b: nat, c: nat)
    requires a <= b <= c
    ensures f + Range(a, b) + Range(b, c) == f + Range(a, c)
  {
    assert Range(a, b) + Range(b, c) == Range(a, c);
  }

  lemma AppendAssoc<T>(a: seq<T>, b: seq<T>, c: seq<T>)
    ensures a + b + c == a + (b + c)
  {
  }

  /** Expanding node `p`: all its children are pushed, brews first, then learns, then casts. */
  method Expand(arena: seq<SearchNode>, frontier: seq<nat>, p: nat) returns (arena': seq<SearchNode>, frontier': seq<nat>)
    requires p < |arena|
    ensures arena' == arena + Children(p, arena[p].state)
    ensures forall j :: j in frontier' <==> j in frontier || |arena| <= j < |arena'|
    ensures frontier' == frontier + Range(|arena|, |arena'|)
  {
    var s := arena[p].state;
    var a1, f1 := PushBrews(arena, frontier, p, s);
    var a2, f2 := PushLearns(a1, f1, p, s);
    arena', frontier' := PushCasts(a2, f2, p, s);
    RangeAppend(frontier, |arena|, |a1|, |a2|);
    RangeAppend(frontier, |arena|, |a2|, |arena'|);
    AppendThree(arena, BrewChildren(p, s, |s.orders|), LearnChildren(p, s, |s.learnableSpells|), CastChildren(p, s, |s.spells|));
  }

  lemma AppendThree<T>(a: seq<T>, b: seq<T>, c: seq<T>, d: seq<T>)
    ensures a + b + c + d == a + (b + c + d)
  {
  }

  /** Appending the children of a node of a search tree yields a search tree. */
  lemma ExtendTree(root: PlayerState, arena: seq<SearchNode>, p: nat, arena': seq<SearchNode>)
    requires Tree(root, arena) && Generated(arena) && p < |arena|
    requires arena' == arena + Children(p, arena[p].state)
    ensures Tree(root, arena') && Generated(arena')
  {
    var s := arena[p].state;
    var children := Children(p, s);
    ChildrenGood(root, p, s);
    forall k | |arena| <= k < |arena'|
      ensures arena'[k] == children[k - |arena|] && arena'[k] in children
    {
    }
    assert arena'[p] == arena[p];
    assert Linked(arena');
    assert Tree(root, arena');
  }

  /** `top` and `rest` are what popping `frontier` leaves: nothing from an empty frontier;
      otherwise a node that no node of the frontier outranks, and the others, each exactly as
      often as before (so no repeat appears that was not there). */
  predicate Popped(arena: seq<SearchNode>, frontier: seq<nat>, top: Option<nat>, rest: seq<nat>)
    requires forall j :: j in frontier ==> j < |arena|
  {
    && (top.None? <==> frontier == [])
    && (top.None? ==> rest == [])
    && (top.Some? ==> top.value in frontier && multiset(rest) + multiset{top.value} == multiset(frontier))
    && (top.Some? ==> forall j :: j in frontier ==> Compare(arena[j], arena[top.value]) != Greater)
    && (forall x :: x in rest ==> x in frontier)
    && (top.Some? ==> forall x :: x in frontier ==> x in rest || x == top.value)
    && (NoDup(frontier) ==> NoDup(rest) && (top.Some? ==> top.value !in rest))
  }

  /** `BinaryHeap::pop`: removes and returns a node of the frontier that no other node of the
      frontier outranks, or nothing when the frontier is empty. */
  method Pop(arena: seq<SearchNode>, frontier: seq<nat>) returns (top: Option<nat>, rest: seq<nat>)
    requires forall j :: j in frontier ==> j < |arena|
    ensures Popped(arena, frontier, top, rest)
  {
    if frontier == [] {
      return None, [];
    }
    assert forall k :: 0 <= k < |frontier| ==> frontier[k] in frontier;
    var pos := 0;
    for k := 1 to |frontier|
      invariant pos < |frontier|
      invariant forall j :: 0 <= j < k ==> Compare(arena[frontier[j]], arena[frontier[pos]]) != Greater
    {
      if Compare(arena[frontier[k]], arena[frontier[pos]]) == Greater {
        pos := k;
      }
    }
    top := Some(frontier[pos]);
    forall j | j in frontier
      ensures Compare(arena[j], arena[top.value]) != Greater
    {
      var k :| 0 <= k < |frontier| && frontier[k] == j;
    }
    rest := frontier[..pos] + frontier[pos + 1..];
    assert frontier == frontier[..pos] + [frontier[pos]] + frontier[pos + 1..];
    if NoDup(frontier) {
      RemoveAt(frontier, pos);
    }
  }

  /** The elements of `s` are pairwise different. */
  predicate NoDup(s: seq<nat>)
  {
    forall i, j :: 0 <= i < j < |s| ==> s[i] != s[j]
  }

  /** Removing one element of a sequence without repeats leaves no repeats and no copy of it. */
  lemma RemoveAt(s: seq<nat>, pos: nat)
    requires NoDup(s) && pos < |s|
    ensures NoDup(s[..pos] + s[pos + 1..]) && s[pos] !in s[..pos] + s[pos + 1..]
  {
    var r := s[..pos] + s[pos + 1..];
    assert forall i :: 0 <= i < |r| ==> r[i] == s[if i < pos then i else i + 1];
  }

  /** The arena holds `cs` as a contiguous run starting at `start`. */
  predicate Occupies(arena: seq<SearchNode>, start: nat, cs: seq<SearchNode>)
  {
    start <= |arena| && |cs| <= |arena| - start && arena[start..start + |cs|] == cs
  }

  /** Node `p` of the arena was expanded and its children occupy the arena from `start` on. */
  predicate ExpandedAt(arena: seq<SearchNode>, p: nat, start: nat)
  {
    p < |arena| && Occupies(arena, start, Children(p, arena[p].state))
  }

  lemma OccupiesGrows(arena: seq<SearchNode>, extra: seq<SearchNode>, start: nat, cs: seq<SearchNode>)
    requires Occupies(arena, start, cs)
    ensures Occupies(arena + extra, start, cs)
  {
    assert (arena + extra)[start..start + |cs|] == arena[start..start + |cs|];
  }

  lemma ExpandedGrows(arena: seq<SearchNode>, extra: seq<SearchNode>, p: nat, start: nat)
    requires ExpandedAt(arena, p, start)
    ensures ExpandedAt(arena + extra, p, start)
  {
    assert (arena + extra)[p] == arena[p];
    OccupiesGrows(arena, extra, start, Children(p, arena[p].state));
  }

  /** The arena is laid out by the expansions: the root, then the children of `expanded[0]`
      from `starts[0] == 1` on, then those of `expanded[1]` right after them, and so on to the
      end of the arena; each expanded node was already in the arena when it was popped. */
  predicate Laid(arena: seq<SearchNode>, expanded: seq<nat>, starts: seq<nat>)
  {
    && |expanded| == |starts|
    && (|expanded| == 0 ==> |arena| == 1)
    && (|expanded| > 0 ==> starts[0] == 1)
    && forall k :: 0 <= k < |expanded| ==>
         && expanded[k] < starts[k]
         && ExpandedAt(arena, expanded[k], starts[k])
         && starts[k] + |Children(expanded[k], arena[expanded[k]].state)| == if k + 1 < |expanded| then starts[k + 1] else |arena|
  }

  /** Every expansion took a node that no node then in the arena and not yet expanded
      outranks: when `expanded[k]` was popped the arena held `starts[k]` nodes. */
  predicate BestFirst(arena: seq<SearchNode>, expanded: seq<nat>, starts: seq<nat>)
    requires |expanded| == |starts|
  {
    forall k, j :: 0 <= k < |expanded| && 0 <= j < starts[k] <= |arena| && expanded[k] < |arena| && j !in expanded[..k + 1] ==>
      Compare(arena[j], arena[expanded[k]]) != Greater
  }

  /** A recorded run stays where it was when the arena grows. */
  lemma LaidKept(arena: seq<SearchNode>, cs: seq<SearchNode>, expanded: seq<nat>, starts: seq<nat>, k: nat)
    requires Laid(arena, expanded, starts) && k < |expanded|
    ensures ExpandedAt(arena + cs, expanded[k], starts[k])
    ensures starts[k] + |Children(expanded[k], (arena + cs)[expanded[k]].state)| ==
      if k + 1 < |expanded| then starts[k + 1] else |arena|
  {
    ExpandedGrows(arena, cs, expanded[k], starts[k]);
    assert (arena + cs)[expanded[k]] == arena[expanded[k]];
  }

  /** The children of `p` form the run that ends the grown arena. */
  lemma LaidNew(arena: seq<SearchNode>, p: nat, arena': seq<SearchNode>)
    requires p < |arena| && arena' == arena + Children(p, arena[p].state)
    ensures ExpandedAt(arena', p, |arena|) && |arena| + |Children(p, arena'[p].state)| == |arena'|
  {
    assert arena'[p] == arena[p];
    assert arena'[|arena|..|arena'|] == Children(p, arena[p].state);
  }

  /** Expanding `p` appends its run to the layout. */
  lemma LaidStep(arena: seq<SearchNode>, p: nat, expanded: seq<nat>, starts: seq<nat>, arena': seq<SearchNode>)
    requires p < |arena| && Laid(arena, expanded, starts)
    requires arena' == arena + Children(p, arena[p].state)
    ensures Laid(arena', expanded + [p], starts + [|arena|])
  {
    var e, st := expanded + [p], starts + [|arena|];
    forall k | 0 <= k < |e|
      ensures e[k] < st[k]
      ensures ExpandedAt(arena', e[k], st[k])
      ensures st[k] + |Children(e[k], arena'[e[k]].state)| == if k + 1 < |e| then st[k + 1] else |arena'|
    {
      if k < |expanded| {
        LaidKept(arena, Children(p, arena[p].state), expanded, starts, k);
      } else {
        LaidNew(arena, p, arena');
      }
    }
  }

  /** Expanding `p`, which no other unexpanded node outranks, keeps the expansions best-first. */
  lemma BestFirstStep(arena: seq<SearchNode>, p: nat, expanded: seq<nat>, starts: seq<nat>, arena': seq<SearchNode>)
    requires p < |arena| && Laid(arena, expanded, starts) && BestFirst(arena, expanded, starts)
    requires forall j :: 0 <= j < |arena| && j !in expanded && j != p ==> Compare(arena[j], arena[p]) != Greater
    requires arena' == arena + Children(p, arena[p].state)
    ensures BestFirst(arena', expanded + [p], starts + [|arena|])
  {
    var e, st := expanded + [p], starts + [|arena|];
    forall k, j | 0 <= k < |e| && 0 <= j < st[k] <= |arena'| && e[k] < |arena'| && j !in e[..k + 1]
      ensures Compare(arena'[j], arena'[e[k]]) != Greater
    {
      if k < |expanded| {
        assert e[..k + 1] == expanded[..k + 1];
        assert ExpandedAt(arena, expanded[k], starts[k]);
        assert arena'[j] == arena[j] && arena'[e[k]] == arena[expanded[k]];
      } else {
        assert e[..k + 1] == e;
        assert arena'[j] == arena[j] && arena'[p] == arena[p];
      }
    }
  }

  /** No index of the frontier repeats once a run of fresh indices is pushed. */
  lemma PushedNoDup(frontier: seq<nat>, a: nat, b: nat)
    requires a <= b && NoDup(frontier) && forall j :: j in frontier ==> j < a
    ensures NoDup(frontier + Range(a, b))
  {
    var g := frontier + Range(a, b);
    forall i, j | 0 <= i < j < |g|
      ensures g[i] != g[j]
    {
      if i < |frontier| && j >= |frontier| {
        assert g[i] in frontier;
      }
    }
  }

  /** Expanded nodes never repeat and never wait in the frontier: `p` was not expanded before,
      and the frontier only gains fresh indices. */
  lemma DistinctStep(n: nat, n': nat, frontier: seq<nat>, grown: seq<nat>, frontier': seq<nat>,
                     top: Option<nat>, expanded: seq<nat>, p: nat)
    requires NoDup(expanded) && p < n && p !in expanded && p !in frontier
    requires forall k :: 0 <= k < |expanded| ==> expanded[k] < n
    requires forall j :: j in frontier ==> j !in expanded
    requires forall j :: j in grown <==> j in frontier || n <= j < n'
    requires forall x :: x in frontier' ==> x in grown
    requires top.Some? ==> top.value in grown
    ensures NoDup(expanded + [p])
    ensures forall j :: j in frontier' ==> j !in expanded + [p]
    ensures top.Some? ==> top.value !in expanded + [p]
  {
    forall i | 0 <= i < |expanded|
      ensures expanded[i] != p
    {
      assert expanded[i] in expanded;
    }
  }

  /** The frontier grown by the run `a`, ..., `b - 1` holds the old entries and that run. */
  lemma InGrown(frontier: seq<nat>, a: nat, b: nat)
    requires a <= b
    ensures forall j :: j in frontier + Range(a, b) <==> j in frontier || a <= j < b
  {
    forall j | a <= j < b
      ensures j in Range(a, b)
    {
      assert Range(a, b)[j - a] == j;
    }
  }

  /** The arena is a search tree from `root`, laid out by the expansions, which were
      best-first and never repeat. */
  predicate Shaped(root: PlayerState, arena: seq<SearchNode>, expanded: seq<nat>, starts: seq<nat>)
  {
    && Tree(root, arena) && Generated(arena) && Laid(arena, expanded, starts)
    && BestFirst(arena, expanded, starts) && NoDup(expanded)
  }

  /** The nodes not yet expanded: `top` (just popped) and the frontier, with no repeats, no
      expanded node among them, and `top` outranking the frontier; every node of the arena is
      expanded, waiting in the frontier or `top`. */
  predicate Waiting(arena: seq<SearchNode>, frontier: seq<nat>, top: Option<nat>, expanded: seq<nat>)
  {
    && NoDup(frontier)
    && (top.Some? ==> top.value < |arena| && top.value !in frontier && top.value !in expanded)
    && (forall j :: j in frontier ==> 0 < j < |arena| && j !in expanded)
    && (top.None? ==> frontier == [])
    && (top.Some? ==> forall j :: j in frontier ==> Compare(arena[j], arena[top.value]) != Greater)
    && (forall k :: 0 <= k < |arena| ==> k in expanded || k in frontier || top == Some(k))
  }

  /** What holds of the search between two expansions. */
  predicate Searching(root: PlayerState, arena: seq<SearchNode>, frontier: seq<nat>, top: Option<nat>,
                      expanded: seq<nat>, starts: seq<nat>)
  {
    Shaped(root, arena, expanded, starts) && Waiting(arena, frontier, top, expanded)
  }

  /** The popped node is one that no unexpanded node of the arena outranks. */
  lemma TopIsBest(arena: seq<SearchNode>, frontier: seq<nat>, p: nat, expanded: seq<nat>)
    requires Waiting(arena, frontier, Some(p), expanded)
    ensures forall j :: 0 <= j < |arena| && j !in expanded && j != p ==> Compare(arena[j], arena[p]) != Greater
  {
    forall j | 0 <= j < |arena| && j !in expanded && j != p
      ensures Compare(arena[j], arena[p]) != Greater
    {
      assert j in frontier;
    }
  }

  /** Expanding the best unexpanded node `p` keeps the arena shaped by the expansions. */
  lemma ShapeStep(root: PlayerState, arena: seq<SearchNode>, p: nat, expanded: seq<nat>, starts: seq<nat>,
                  arena': seq<SearchNode>)
    requires Shaped(root, arena, expanded, starts) && p < |arena| && p !in expanded
    requires forall j :: 0 <= j < |arena| && j !in expanded && j != p ==> Compare(arena[j], arena[p]) != Greater
    requires arena' == arena + Children(p, arena[p].state)
    ensures Shaped(root, arena', expanded + [p], starts + [|arena|])
  {
    ExtendTree(root, arena, p, arena');
    LaidStep(arena, p, expanded, starts, arena');
    BestFirstStep(arena, p, expanded, starts, arena');
    forall i | 0 <= i < |expanded|
      ensures expanded[i] != p
    {
      assert expanded[i] in expanded;
    }
  }

  /** Popping the grown frontier leaves the unexpanded nodes waiting as before, `p` now
      among the expanded ones. */
  lemma WaitStep(arena: seq<SearchNode>, arena': seq<SearchNode>, frontier: seq<nat>, grown: seq<nat>,
                 frontier': seq<nat>, top: Option<nat>, expanded: seq<nat>, p: nat)
    requires Waiting(arena, frontier, Some(p), expanded) && NoDup(expanded) && |arena| <= |arena'|
    requires forall k :: 0 <= k < |expanded| ==> expanded[k] < |arena|
    requires grown == frontier + Range(|arena|, |arena'|)
    requires forall j :: j in grown ==> j < |arena'|
    requires Popped(arena', grown, top, frontier')
    ensures Waiting(arena', frontier', top, expanded + [p])
  {
    InGrown(frontier, |arena|, |arena'|);
    PushedNoDup(frontier, |arena|, |arena'|);
    AccountStep(|arena|, |arena'|, frontier, grown, frontier', top, expanded, p);
    DistinctStep(|arena|, |arena'|, frontier, grown, frontier', top, expanded, p);
  }

  /** One turn of the loop of `do_search`: expand the popped node `p`, appending its children
      to the arena and their indices to the frontier, then pop the next node. */
  method SearchStep(root: PlayerState, arena: seq<SearchNode>, frontier: seq<nat>, p: nat,
                    ghost expanded: seq<nat>, ghost starts: seq<nat>)
    returns (arena': seq<SearchNode>, frontier': seq<nat>, top: Option<nat>,
             ghost expanded': seq<nat>, ghost starts': seq<nat>)
    requires Searching(root, arena, frontier, Some(p), expanded, starts)
    ensures arena' == arena + Children(p, arena[p].state)
    ensures expanded' == expanded + [p] && starts' == starts + [|arena|]
    ensures top.None? <==> frontier + Range(|arena|, |arena'|) == []
    ensures top.Some? ==> (0 < top.value
      && multiset(frontier') + multiset{top.value} == multiset(frontier + Range(|arena|, |arena'|)))
    ensures Searching(root, arena', frontier', top, expanded', starts')
  {
    expanded', starts' := expanded + [p], starts + [|arena|];
    var grown;
    arena', grown := Expand(arena, frontier, p);
    TopIsBest(arena, frontier, p, expanded);
    ShapeStep(root, arena, p, expanded, starts, arena');
    top, frontier' := Pop(arena', grown);
    assert forall k :: 0 <= k < |expanded| ==> ExpandedAt(arena, expanded[k], starts[k]);
    WaitStep(arena, arena', frontier, grown, frontier', top, expanded, p);
  }

  /** After an expansion every node is still expanded, waiting or on top: `p` joins the
      expanded nodes, and the new nodes and the old frontier pass through `grown`. */
  lemma AccountStep(n: nat, n': nat, frontier: seq<nat>, grown: seq<nat>, frontier': seq<nat>,
                    top: Option<nat>, expanded: seq<nat>, p: nat)
    requires forall k :: 0 <= k < n ==> k in expanded || k in frontier || k == p
    requires forall j :: j in grown <==> j in frontier || n <= j < n'
    requires top.Some? ==> forall x :: x in grown ==> x in frontier' || x == top.value
    requires top.None? ==> grown == []
    ensures forall k :: 0 <= k < n' ==> k in expanded + [p] || k in frontier' || top == Some(k)
  {
    forall k | 0 <= k < n'
      ensures k in expanded + [p] || k in frontier' || top == Some(k)
    {
      if k < n && k !in frontier {
        assert k in expanded || k == p;
      } else {
        assert k in grown;
      }
    }
  }

  /** How the search ended, given the nodes it expanded:
      - every node is exactly one of: expanded, left in `remaining`, the answer `best`, or
        the node `dropped` (popped when the counter ran out, and never expanded);
      - with no node dropped the frontier ran dry: all nodes were expanded and there is no
        answer;
      - a node is dropped only after `budget + 1` expansions, and no unexpanded node
        outranks it;
      - an answer exists only when a node was dropped, and it outranks every node left. */
  predicate Answered(budget: nat, arena: seq<SearchNode>, best: Option<nat>, remaining: seq<nat>,
                     expansions: nat, expanded: seq<nat>, dropped: Option<nat>)
  {
    && (forall k :: 0 <= k < |arena| ==> k in expanded || k in remaining || best == Some(k) || dropped == Some(k))
    && (forall j :: j in remaining ==> 0 < j < |arena| && j !in expanded && Some(j) != best && Some(j) != dropped)
    && (dropped.None? ==> best.None? && remaining == [] && forall k :: 0 <= k < |arena| ==> k in expanded)
    && (dropped.Some? ==>
         && expansions == budget + 1 && 0 < dropped.value < |arena| && dropped.value !in expanded
         && forall j :: 0 <= j < |arena| && j !in expanded ==> Compare(arena[j], arena[dropped.value]) != Greater)
    && (best.Some? ==>
         && dropped.Some? && best != dropped && 0 < best.value < |arena| && best.value !in expanded
         && forall j :: j in remaining ==> Compare(arena[j], arena[best.value]) != Greater)
    && (best.None? ==> remaining == [])
  }

  /** What `do_search` leaves behind, run from `state` with step budget `budget`: the arena
      is a search tree from `state` shaped by between 1 and `budget + 1` expansions, the root
      first, and the search ended as `Answered` says. */
  predicate Searched(state: PlayerState, budget: nat, arena: seq<SearchNode>, best: Option<nat>,
                     remaining: seq<nat>, expansions: nat, expanded: seq<nat>, starts: seq<nat>,
                     dropped: Option<nat>)
  {
    && Shaped(state, arena, expanded, starts)
    && 1 <= expansions <= budget + 1 && |expanded| == expansions && expanded[0] == 0
    && Answered(budget, arena, best, remaining, expansions, expanded, dropped)
  }

  /** `do_search` in the engine: best-first expansion from the snapshot until the step counter
      exceeds `budget` or the frontier runs dry; then the top of the frontier is the answer.
      The node popped when the counter runs out is not expanded: it is returned as `dropped`.
      `expanded` lists the expanded nodes in order and `starts` where each one's children begin. */
  method DoSearch(state: PlayerState, budget: nat)
    returns (arena: seq<SearchNode>, best: Option<nat>, remaining: seq<nat>, expansions: nat,
             ghost expanded: seq<nat>, ghost starts: seq<nat>, ghost dropped: Option<nat>)
    ensures Searched(state, budget, arena, best, remaining, expansions, expanded, starts, dropped)
  {
    arena := [Root(state)];
    WithinRefl(state);
    var frontier: seq<nat> := [];
    var steps: nat := 0;
    var top: Option<nat> := Some(0);
    expanded, starts, dropped := [], [], None;
    while top.Some?
      invariant Searching(state, arena, frontier, top, expanded, starts)
      invariant steps <= budget + 1 && |expanded| == steps
      invariant steps == 0 ==> top == Some(0)
      invariant steps > 0 ==> expanded[0] == 0 && (top.Some? ==> 0 < top.value)
      invariant dropped.None?
      decreases budget + 1 - steps
    {
      if steps > budget {
        dropped := top;
        break;
      }
      steps := steps + 1;
      arena, frontier, top, expanded, starts := SearchStep(state, arena, frontier, top.value, expanded, starts);
    }
    expansions := steps;
    best, remaining := Pop(arena, frontier);
    Finish(budget, arena, frontier, expanded, dropped, best, remaining, expansions);
  }

  /** The final pop of `do_search` turns the nodes the loop left waiting into its answer. */
  lemma Finish(budget: nat, arena: seq<SearchNode>, frontier: seq<nat>, expanded: seq<nat>,
               dropped: Option<nat>, best: Option<nat>, remaining: seq<nat>, expansions: nat)
    requires Waiting(arena, frontier, dropped, expanded)
    requires dropped.Some? ==> expansions == budget + 1 && 0 < dropped.value
    requires Popped(arena, frontier, best, remaining)
    ensures Answered(budget, arena, best, remaining, expansions, expanded, dropped)
  {
    if dropped.Some? {
      forall j | 0 <= j < |arena| && j !in expanded
        ensures Compare(arena[j], arena[dropped.value]) != Greater
      {
        if j != dropped.value {
          assert j in frontier;
        }
      }
    }
  }

  // ---------------------------------------------------------------------------------------
  // Path reconstruction.

  /** Parents come before their children in the arena. */
  predicate ParentsFirst(arena: seq<SearchNode>)
  {
    forall k :: 0 <= k < |arena| && arena[k].previous.Some? ==> arena[k].previous.value < k
  }

  /** The chain of nodes from `i` back to, and excluding, the first Initial node. */
  function PathToRoot(arena: seq<SearchNode>, i: nat): seq<nat>
    requires ParentsFirst(arena) && i < |arena|
    decreases i
  {
    if arena[i].lastMove.Initial? then []
    else
      match arena[i].previous
      case None => [i]
      case Some(p) => [i] + PathToRoot(arena, p)
  }

  /** `build_seq` in the engine. */
  method BuildSeq(arena: seq<SearchNode>, node: nat) returns (path: seq<nat>)
    requires ParentsFirst(arena) && node < |arena|
    ensures path == PathToRoot(arena, node)
  {
    path := [];
    var n: Option<nat> := Some(node);
    while n.Some?
      invariant n.Some? ==> n.value < |arena|
      invariant path + RestOfPath(arena, n) == PathToRoot(arena, node)
      decreases if n.Some? then n.value + 1 else 0
    {
      var nn := n.value;
      if arena[nn].lastMove.Initial? {
        assert RestOfPath(arena, n) == [];
        break;
      }
      PathStep(arena, path, nn);
      n := arena[nn].previous;
      path := path + [nn];
    }
  }

  /** What is left of the path once the walk has reached `n`. */
  function RestOfPath(arena: seq<SearchNode>, n: Option<nat>): seq<nat>
    requires ParentsFirst(arena) && (n.Some? ==> n.value < |arena|)
  {
    if n.Some? then PathToRoot(arena, n.value) else []
  }

  /** One step of the walk moves a node from the rest of the path to its front. */
  lemma PathStep(arena: seq<SearchNode>, path: seq<nat>, nn: nat)
    requires ParentsFirst(arena) && nn < |arena| && !arena[nn].lastMove.Initial?
    ensures path + RestOfPath(arena, Some(nn)) == (path + [nn]) + RestOfPath(arena, arena[nn].previous)
  {
    AppendAssoc(path, [nn], RestOfPath(arena, arena[nn].previous));
  }

  lemma LinkedParentsFirst(arena: seq<SearchNode>)
    requires Linked(arena)
    ensures ParentsFirst(arena)
  {
  }

  /** In a search tree the path from a non-root node starts at that node, steps from each node
      to its parent, never contains the root, and ends at a child of the root. */
  lemma {:induction false} PathShape(arena: seq<SearchNode>, i: nat)
    requires Linked(arena) && 0 < i < |arena|
    ensures ParentsFirst(arena)
    ensures var path := PathToRoot(arena, i);
      && |path| > 0 && path[0] == i
      && (forall k :: 0 <= k < |path| ==> 0 < path[k] < |arena| && arena[path[k]].lastMove.GameMove?)
      && (forall k :: 0 <= k < |path| - 1 ==> arena[path[k]].previous == Some(path[k + 1]))
      && arena[path[|path| - 1]].previous == Some(0)
  {
    LinkedParentsFirst(arena);
    var p := arena[i].previous.value;
    assert arena[i].lastMove.GameMove?;
    var path := PathToRoot(arena, i);
    if p == 0 {
      assert PathToRoot(arena, 0) == [];
      assert path == [i];
    } else {
      PathShape(arena, p);
      var tail := PathToRoot(arena, p);
      assert path == [i] + tail;
      forall k | 0 <= k < |path| - 1
        ensures arena[path[k]].previous == Some(path[k + 1])
      {
        if k > 0 {
          assert path[k] == tail[k - 1] && path[k + 1] == tail[k];
        }
      }
    }
  }

  /** `get_move` in the engine: searches from the snapshot and answers the last move of the best
      node found (not the first move of its path), or Wait when the search found nothing.
      The ghost results are those of the search, which `Searched` describes. */
  method GetMove(state: PlayerState)
    returns (m: Move, ghost arena: seq<SearchNode>, ghost best: Option<nat>, ghost remaining: seq<nat>,
             ghost expansions: nat, ghost expanded: seq<nat>, ghost starts: seq<nat>, ghost dropped: Option<nat>)
    ensures Searched(state, SearchBudget, arena, best, remaining, expansions, expanded, starts, dropped)
    ensures best.Some? ==> arena[best.value].lastMove == GameMove(m)
    ensures best.None? ==> m == Wait
    ensures Refers(state, m)
  {
    var tree, answer, left, count, done, runs, popped := DoSearch(state, SearchBudget);
    arena, best, remaining, expansions, expanded, starts, dropped := tree, answer, left, count, done, runs, popped;
    if answer.Some? {
      LinkedParentsFirst(tree);
      var path := BuildSeq(tree, answer.value);
      match tree[answer.value].lastMove
      case GameMove(mv) => m := mv;
      case Initial => m := Wait;
    } else {
      m := Wait;
    }
  }
}
