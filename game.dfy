/** The live potion game (rust/src/main.rs): the catalogue with its action ids, the initial
    deal, the state machine that applies a chosen move to the game state, and the capped
    move loop that alternates the search engine and that state machine. */
module Game {
  import opened Wrappers
  import opened Potions
  import Search

  /** The reasons `apply_move` panics, one per `expect`/`panic!` in it. */
  datatype Panic =
    | OrderNotFound
    | CannotAfford
    | NoItemsLeft
    | SpellNotFound
    | CannotAffordLearning
    | SpellExhausted

  /** A snapshot of every field of the game state. */
  datatype GameView = GameView(
    inventory: Inventory,
    score: nat,
    spells: seq<Spell>,
    learnableSpells: seq<LearnableSpell>,
    nextLearnableSpells: seq<SpellDescriptor>,
    orders: seq<Order>,
    nextOrders: seq<Order>,
    potionsBrewed: nat,
    nextId: nat,
    moves: nat)

  /** What applying a move does: whether it panicked, and the state it left behind. */
  datatype Applied = Applied(outcome: Outcome<Panic>, after: GameView)

  // ---------------------------------------------------------------------------------------
  // Looking entities up by action id.

  /** The position of the first element of `s` whose key is `id`, if there is one. */
  function FirstIndex<T>(s: seq<T>, key: T -> nat, id: nat): (r: Option<nat>)
    ensures r.Some? ==> r.value < |s| && key(s[r.value]) == id
    ensures r.Some? ==> forall j :: 0 <= j < r.value ==> key(s[j]) != id
    ensures r.None? <==> forall j :: 0 <= j < |s| ==> key(s[j]) != id
  {
    if s == [] then None
    else if key(s[0]) == id then Some(0)
    else
      match FirstIndex(s[1..], key, id)
      case None => None
      case Some(j) => Some(j + 1)
  }

  /** The first index is determined by the element it finds and the ones in front of it. */
  lemma FirstIndexAt<T>(s: seq<T>, key: T -> nat, id: nat, i: nat)
    requires i < |s| && key(s[i]) == id
    requires forall j :: 0 <= j < i ==> key(s[j]) != id
    ensures FirstIndex(s, key, id) == Some(i)
  {
    var r := FirstIndex(s, key, id);
    assert r.Some?;
  }

  /** `iter().find` / `iter().position` by action id, as `apply_move` looks entities up. */
  method Find<T>(s: seq<T>, key: T -> nat, id: nat) returns (r: Option<nat>)
    ensures r == FirstIndex(s, key, id)
  {
    for k := 0 to |s|
      invariant forall j :: 0 <= j < k ==> key(s[j]) != id
    {
      if key(s[k]) == id {
        return Some(k);
      }
    }
    return None;
  }

  // ---------------------------------------------------------------------------------------
  // The state machine, as a function of the state before the move.

  /** `apply_move`, stated on snapshots. A panicking move leaves the state as it was when the
      panic struck: Brew pays and scores before it finds the order queue empty. */
  function Transition(v: GameView, m: Move): (r: Applied)
    ensures m.Wait? ==> r.outcome == Pass
    ensures r.outcome == Fail(NoItemsLeft) ==> m.Brew?
    ensures r.outcome.Fail? && r.outcome.error != NoItemsLeft ==> r.after == v
    ensures r.after.score >= v.score && r.after.moves == v.moves && r.after.nextId == v.nextId
  {
    match m
    case Wait => Applied(Pass, v.(spells := Refreshed(v.spells)))
    case Brew(id) => BrewTransition(v, id)
    case Learn(id) => LearnTransition(v, id)
    case Cast(id, times) => CastTransition(v, id, times)
  }

  /** The Brew case: only the score, the potion count, the inventory and the order queues can
      change, and the queued orders only move to the open ones. */
  function BrewTransition(v: GameView, id: nat): (r: Applied)
    ensures r.outcome.Fail? ==> r.outcome.error in {OrderNotFound, CannotAfford, NoItemsLeft}
    ensures r.outcome == Fail(OrderNotFound) <==> forall k :: 0 <= k < |v.orders| ==> v.orders[k].actionId != id
    ensures r.after == v.(score := r.after.score, potionsBrewed := r.after.potionsBrewed, inventory := r.after.inventory,
                          orders := r.after.orders, nextOrders := r.after.nextOrders)
    ensures r.after.score >= v.score && r.after.potionsBrewed <= v.potionsBrewed + 1
    ensures v.orders <= r.after.orders && r.after.orders + r.after.nextOrders == v.orders + v.nextOrders
  {
    match FirstIndex(v.orders, OrderId, id)
    case None => Applied(Fail(OrderNotFound), v)
    case Some(i) =>
      var order := v.orders[i];
      if !CanAfford(v.inventory, order.brewingPrice) then Applied(Fail(CannotAfford), v)
      else
        var paid := v.(
          score := v.score + order.reward,
          potionsBrewed := v.potionsBrewed + 1,
          inventory := ApplyPrice(v.inventory, order.brewingPrice));
        if v.nextOrders == [] then Applied(Fail(NoItemsLeft), paid)
        else Applied(Pass, paid.(orders := v.orders + [v.nextOrders[0]], nextOrders := v.nextOrders[1..]))
  }

  /** The Learn case: only the inventory, the owned spells and the offer queues can change; a
      success adds exactly one owned spell, and the queued offers only move to the open ones. */
  function LearnTransition(v: GameView, id: nat): (r: Applied)
    ensures r.outcome.Fail? ==> r.after == v && r.outcome.error in {SpellNotFound, CannotAffordLearning}
    ensures r.outcome == Fail(SpellNotFound) <==> forall k :: 0 <= k < |v.learnableSpells| ==> OfferId(v.learnableSpells[k]) != id
    ensures r.after == v.(inventory := r.after.inventory, spells := r.after.spells,
                          learnableSpells := r.after.learnableSpells, nextLearnableSpells := r.after.nextLearnableSpells)
    ensures r.outcome == Pass ==> |r.after.spells| == |v.spells| + 1 && v.spells <= r.after.spells
    ensures |r.after.learnableSpells| + |r.after.nextLearnableSpells| == |v.learnableSpells| + |v.nextLearnableSpells|
  {
    match FirstIndex(v.learnableSpells, OfferId, id)
    case None => Applied(Fail(SpellNotFound), v)
    case Some(i) =>
      var learnable := v.learnableSpells[i];
      if !CanAfford(v.inventory, Search.LearnPrice(i)) then Applied(Fail(CannotAffordLearning), v)
      else
        var learned := v.(
          inventory := ApplyPrice(v.inventory, Search.LearnPrice(i)),
          spells := v.spells + [Spell(learnable.descriptor, false)],
          learnableSpells := BumpRewards(v.learnableSpells, i));
        if v.nextLearnableSpells == [] then Applied(Pass, learned)
        else
          Applied(Pass, learned.(
            learnableSpells := learned.learnableSpells + [LearnableSpell(v.nextLearnableSpells[0], 0)],
            nextLearnableSpells := v.nextLearnableSpells[1..]))
  }

  /** The Cast case: only the inventory and the exhausted flag of the spell cast can change. */
  function CastTransition(v: GameView, id: nat, times: nat): (r: Applied)
    ensures r.outcome.Fail? ==> r.after == v && r.outcome.error in {SpellNotFound, CannotAfford, SpellExhausted}
    ensures r.outcome == Fail(SpellNotFound) <==> forall k :: 0 <= k < |v.spells| ==> SpellId(v.spells[k]) != id
    ensures r.after == v.(inventory := r.after.inventory, spells := r.after.spells)
    ensures |r.after.spells| == |v.spells|
    ensures forall k :: 0 <= k < |v.spells| ==> r.after.spells[k].descriptor == v.spells[k].descriptor
    ensures r.outcome == Pass ==> exists k :: (0 <= k < |v.spells| && SpellId(v.spells[k]) == id
      && !v.spells[k].exhausted && r.after.spells[k].exhausted)
  {
    match FirstIndex(v.spells, SpellId, id)
    case None => Applied(Fail(SpellNotFound), v)
    case Some(i) =>
      var spell := v.spells[i];
      if !CanAfford(v.inventory, spell.descriptor.castingPrice) then Applied(Fail(CannotAfford), v)
      else if spell.exhausted then Applied(Fail(SpellExhausted), v)
      else
        Applied(Pass, v.(
          inventory := ScaledPrice(v.inventory, spell.descriptor.castingPrice, times),
          spells := v.spells[i := Spell(spell.descriptor, true)]))
  }

  // ---------------------------------------------------------------------------------------
  // Properties of the state machine.

  /** Wait makes every owned spell available again and changes nothing else; a second Wait
      changes nothing at all. */
  lemma WaitEffect(v: GameView)
    ensures var a := Transition(v, Wait);
      && a.outcome == Pass
      && |a.after.spells| == |v.spells|
      && (forall k :: 0 <= k < |v.spells| ==> a.after.spells[k] == Spell(v.spells[k].descriptor, false))
      && a.after.(spells := v.spells) == v
      && Transition(a.after, Wait) == a
  {
    RefreshedIdempotent(v.spells);
  }

  /** Brewing an id that no open order carries panics and changes nothing. */
  lemma BrewMissing(v: GameView, id: nat)
    requires forall o :: o in v.orders ==> o.actionId != id
    ensures Transition(v, Brew(id)) == Applied(Fail(OrderNotFound), v)
  {
    assert FirstIndex(v.orders, OrderId, id).None? by {
      forall j | 0 <= j < |v.orders|
        ensures OrderId(v.orders[j]) != id
      {
        assert v.orders[j] in v.orders;
      }
    }
  }

  /** Brewing the first open order with the id: unaffordable panics with no effect; otherwise
      the reward is scored, one potion is counted and the price is paid, and then the front of
      the queue is dealt onto the open orders, or the move panics with that payment already
      made. The brewed order itself stays open. */
  lemma BrewOutcome(v: GameView, id: nat, i: nat)
    requires i < |v.orders| && v.orders[i].actionId == id
    requires forall j :: 0 <= j < i ==> v.orders[j].actionId != id
    ensures var a := Transition(v, Brew(id)); var o := v.orders[i];
      && (a.outcome == Fail(CannotAfford) <==> !CanAfford(v.inventory, o.brewingPrice))
      && (a.outcome == Fail(CannotAfford) ==> a.after == v)
      && (a.outcome == Fail(NoItemsLeft) <==> CanAfford(v.inventory, o.brewingPrice) && v.nextOrders == [])
      && (CanAfford(v.inventory, o.brewingPrice) ==>
            && a.after.score == v.score + o.reward
            && a.after.potionsBrewed == v.potionsBrewed + 1
            && (forall k :: 0 <= k < 4 ==> a.after.inventory[k] == v.inventory[k] + o.brewingPrice[k])
            && a.after.spells == v.spells && a.after.learnableSpells == v.learnableSpells)
      && (a.outcome == Pass ==>
            && a.after.orders == v.orders + [v.nextOrders[0]]
            && a.after.nextOrders == v.nextOrders[1..]
            && o in a.after.orders)
  {
    FirstIndexAt(v.orders, OrderId, id, i);
  }

  /** Learning the first offer with the id: its position `i` is the price in the first
      resource, and an unaffordable price panics with no effect. Otherwise the spell is owned,
      unexhausted; every offer in front of it gains a reward point; the next queued spell, if
      any, is offered with reward 0. The offer's own reward is not collected and the offer
      stays on the table. */
  lemma LearnOutcome(v: GameView, id: nat, i: nat)
    requires i < |v.learnableSpells| && v.learnableSpells[i].descriptor.actionId == id
    requires forall j :: 0 <= j < i ==> v.learnableSpells[j].descriptor.actionId != id
    ensures var a := Transition(v, Learn(id)); var l := v.learnableSpells[i];
      && (a.outcome == Pass <==>
            v.inventory[0] > i && v.inventory[1] > 0 && v.inventory[2] > 0 && v.inventory[3] > 0)
      && (a.outcome.Fail? ==> a.outcome == Fail(CannotAffordLearning) && a.after == v)
      && (a.outcome == Pass ==>
            && a.after.inventory == [v.inventory[0] - i, v.inventory[1], v.inventory[2], v.inventory[3]]
            && a.after.spells == v.spells + [Spell(l.descriptor, false)]
            && |a.after.learnableSpells| == |v.learnableSpells| + (if v.nextLearnableSpells == [] then 0 else 1)
            && (forall k :: 0 <= k < i ==>
                  a.after.learnableSpells[k] == v.learnableSpells[k].(reward := v.learnableSpells[k].reward + 1))
            && (forall k :: i <= k < |v.learnableSpells| ==> a.after.learnableSpells[k] == v.learnableSpells[k])
            && (v.nextLearnableSpells != [] ==>
                  && a.after.learnableSpells[|v.learnableSpells|] == LearnableSpell(v.nextLearnableSpells[0], 0)
                  && a.after.nextLearnableSpells == v.nextLearnableSpells[1..])
            && a.after.score == v.score && a.after.orders == v.orders)
  {
    FirstIndexAt(v.learnableSpells, OfferId, id, i);
    var a := Transition(v, Learn(id));
    if a.outcome == Pass {
      var bumped := BumpRewards(v.learnableSpells, i);
      forall k | 0 <= k < |v.learnableSpells|
        ensures a.after.learnableSpells[k] == bumped[k]
        ensures k < i ==> bumped[k] == v.learnableSpells[k].(reward := v.learnableSpells[k].reward + 1)
        ensures i <= k ==> bumped[k] == v.learnableSpells[k]
      {
      }
      assert a.after.inventory == ApplyPrice(v.inventory, Search.LearnPrice(i));
    }
  }

  /** Casting the first owned spell with the id: the affordability of ONE price is tested
      before exhaustion, and either failure panics with no effect. Otherwise the price is paid
      `times` times and that spell, and no other, becomes exhausted. */
  lemma CastOutcome(v: GameView, id: nat, times: nat, i: nat)
    requires i < |v.spells| && v.spells[i].descriptor.actionId == id
    requires forall j :: 0 <= j < i ==> v.spells[j].descriptor.actionId != id
    ensures var a := Transition(v, Cast(id, times)); var s := v.spells[i];
      && (a.outcome == Fail(CannotAfford) <==> !CanAfford(v.inventory, s.descriptor.castingPrice))
      && (a.outcome == Fail(SpellExhausted) <==> CanAfford(v.inventory, s.descriptor.castingPrice) && s.exhausted)
      && (a.outcome.Fail? ==> a.after == v)
      && (a.outcome == Pass ==>
            && (forall k :: 0 <= k < 4 ==> a.after.inventory[k] == v.inventory[k] + times * s.descriptor.castingPrice[k])
            && |a.after.spells| == |v.spells|
            && a.after.spells[i] == Spell(s.descriptor, true)
            && (forall k :: 0 <= k < |v.spells| && k != i ==> a.after.spells[k] == v.spells[k])
            && a.after.(inventory := v.inventory, spells := v.spells) == v)
  {
    FirstIndexAt(v.spells, SpellId, id, i);
  }

  /** A spell cast once cannot be cast again before a Wait: the second cast panics. */
  lemma CastTwicePanics(v: GameView, id: nat, times: nat, again: nat)
    requires Transition(v, Cast(id, times)).outcome == Pass
    ensures Transition(Transition(v, Cast(id, times)).after, Cast(id, again)).outcome.Fail?
  {
    var i := FirstIndex(v.spells, SpellId, id).value;
    var w := Transition(v, Cast(id, times)).after;
    assert w.spells == v.spells[i := Spell(v.spells[i].descriptor, true)];
    forall j | 0 <= j < i
      ensures SpellId(w.spells[j]) != id
    {
      assert w.spells[j] == v.spells[j];
    }
    FirstIndexAt(w.spells, SpellId, id, i);
  }

  // ---------------------------------------------------------------------------------------
  // The engine's view of the game.

  /** The snapshot `get_move` hands to the search: the visible window of the game state. */
  function Project(v: GameView): (r: Search.PlayerState)
    ensures r.inventory == v.inventory && r.score == v.score && r.moves == v.moves && r.potionsBrewed == v.potionsBrewed
    ensures r.spells == v.spells && r.learnableSpells == v.learnableSpells && r.orders == v.orders
  {
    Search.PlayerState(v.inventory, v.spells, v.learnableSpells, v.orders, v.potionsBrewed, v.score, v.moves)
  }

  /** A Brew or Learn move the engine returns names an open order or offer of the game, so
      applying it never panics for want of the id. (A Cast move may name a spell that only a
      hypothetical learning would have given, so no such promise holds for Cast.) */
  lemma ReferredMoveFound(v: GameView, m: Move)
    requires Search.Refers(Project(v), m)
    ensures Transition(v, m).outcome != Fail(OrderNotFound)
    ensures Transition(v, m).outcome != Fail(SpellNotFound) || m.Cast?
  {
    match m
    case Wait =>
    case Brew(id) =>
      var o :| o in v.orders && o.actionId == id;
      var k :| 0 <= k < |v.orders| && v.orders[k] == o;
      assert FirstIndex(v.orders, OrderId, id).Some?;
    case Learn(id) =>
      var d :| d in Search.OfferDescriptors(v.learnableSpells) && d.actionId == id;
      var l :| l in v.learnableSpells && l.descriptor == d;
      var k :| 0 <= k < |v.learnableSpells| && v.learnableSpells[k] == l;
      assert OfferId(v.learnableSpells[k]) == id;
    case Cast(id, times) =>
  }

  // ---------------------------------------------------------------------------------------
  // The catalogue.

  /** A row of the orders table: four brewing amounts and the reward, as `i32`. */
  type OrderRow = r: seq<int> | |r| == 5 witness [0, 0, 0, 0, 0]

  /** Rust's `as u32` on an `i32`: the value modulo 2^32. */
  function ToU32(x: int): (r: nat)
    ensures r < 0x1_0000_0000
    ensures 0 <= x < 0x1_0000_0000 ==> r == x
    ensures (r - x) % 0x1_0000_0000 == 0
  {
    x % 0x1_0000_0000
  }

  /** Rust's `as i8` on an `i32`: the value brought into [-128, 127] modulo 256. */
  function ToI8(x: int): (r: int)
    ensures -128 <= r < 128
    ensures -128 <= x < 128 ==> r == x
    ensures (r - x) % 256 == 0
  {
    (x + 128) % 256 - 128
  }

  /** An order built from a table row: the amounts cast `as i8` and the reward `as u32`. A row
      whose values fit those types is kept exactly. */
  function OrderFromRow(row: OrderRow, id: nat): (r: Order)
    ensures r.actionId == id
    ensures forall k :: 0 <= k < 4 ==> -128 <= r.brewingPrice[k] < 128 && (r.brewingPrice[k] - row[k]) % 256 == 0
    ensures r.reward < 0x1_0000_0000 && (r.reward - row[4]) % 0x1_0000_0000 == 0
    ensures (forall k :: 0 <= k < 4 ==> -128 <= row[k] < 128) && 0 <= row[4] < 0x1_0000_0000 ==>
      r == Order(row[..4], row[4], id)
  {
    Order([ToI8(row[0]), ToI8(row[1]), ToI8(row[2]), ToI8(row[3])], ToU32(row[4]), id)
  }

  /** A spell built from a table row: repeatable exactly when some amount of its price is
      negative. */
  function DescriptorFromRow(price: Inventory, id: nat): (r: SpellDescriptor)
    ensures r.castingPrice == price && r.actionId == id
    ensures r.repeatable <==> exists k :: 0 <= k < 4 && price[k] < 0
  {
    SpellDescriptor(price, id, IsRepeatable(price))
  }

  datatype Catalog = Catalog(orders: seq<Order>, learnable: seq<SpellDescriptor>, initial: seq<SpellDescriptor>)

  /** Every action id of the catalogue, in the order they were handed out. */
  function CatalogIds(c: Catalog): seq<nat>
  {
    OrderIdSeq(c.orders) + DescriptorIdSeq(c.learnable) + DescriptorIdSeq(c.initial)
  }

  function OrderIdSeq(os: seq<Order>): seq<nat>
  {
    seq(|os|, k requires 0 <= k < |os| => os[k].actionId)
  }

  function DescriptorIdSeq(ds: seq<SpellDescriptor>): seq<nat>
  {
    seq(|ds|, k requires 0 <= k < |ds| => ds[k].actionId)
  }

  predicate StrictlyIncreasing(s: seq<nat>)
  {
    forall j, k :: 0 <= j < k < |s| ==> s[j] < s[k]
  }

  /** The catalogue construction of `main`: one counter, pre-incremented, numbers the orders,
      then the learnable spells, then the initial spells. A spell is repeatable exactly when
      its price consumes something. */
  method BuildCatalog(orderRows: seq<OrderRow>, spellRows: seq<Inventory>, initialRows: seq<Inventory>)
    returns (c: Catalog)
    ensures |c.orders| == |orderRows| && |c.learnable| == |spellRows| && |c.initial| == |initialRows|
    ensures forall k :: 0 <= k < |orderRows| ==> c.orders[k] == OrderFromRow(orderRows[k], k + 1)
    ensures forall k :: 0 <= k < |spellRows| ==>
      c.learnable[k] == DescriptorFromRow(spellRows[k], |orderRows| + k + 1)
    ensures forall k :: 0 <= k < |initialRows| ==>
      c.initial[k] == DescriptorFromRow(initialRows[k], |orderRows| + |spellRows| + k + 1)
    ensures StrictlyIncreasing(CatalogIds(c))
  {
    var nextId: nat := 0;
    var orders: seq<Order> := [];
    for k := 0 to |orderRows|
      invariant nextId == k && |orders| == k
      invariant forall j :: 0 <= j < k ==> orders[j] == OrderFromRow(orderRows[j], j + 1)
    {
      nextId := nextId + 1;
      orders := orders + [OrderFromRow(orderRows[k], nextId)];
    }
    var learnable: seq<SpellDescriptor> := [];
    for k := 0 to |spellRows|
      invariant nextId == |orderRows| + k && |learnable| == k
      invariant forall j :: 0 <= j < k ==> learnable[j] == DescriptorFromRow(spellRows[j], |orderRows| + j + 1)
    {
      nextId := nextId + 1;
      learnable := learnable + [DescriptorFromRow(spellRows[k], nextId)];
    }
    var initial: seq<SpellDescriptor> := [];
    for k := 0 to |initialRows|
      invariant nextId == |orderRows| + |spellRows| + k && |initial| == k
      invariant forall j :: 0 <= j < k ==>
        initial[j] == DescriptorFromRow(initialRows[j], |orderRows| + |spellRows| + j + 1)
    {
      nextId := nextId + 1;
      initial := initial + [DescriptorFromRow(initialRows[k], nextId)];
    }
    c := Catalog(orders, learnable, initial);
    CatalogIdsAreCounter(c);
  }

  /** The ids of a catalogue numbered by the counter are 1, 2, 3, ... in order. */
  lemma CatalogIdsAreCounter(c: Catalog)
    requires forall k :: 0 <= k < |c.orders| ==> c.orders[k].actionId == k + 1
    requires forall k :: 0 <= k < |c.learnable| ==> c.learnable[k].actionId == |c.orders| + k + 1
    requires forall k :: 0 <= k < |c.initial| ==> c.initial[k].actionId == |c.orders| + |c.learnable| + k + 1
    ensures var ids := CatalogIds(c); forall k :: 0 <= k < |ids| ==> ids[k] == k + 1
    ensures StrictlyIncreasing(CatalogIds(c))
  {
    var a := OrderIdSeq(c.orders);
    var b := DescriptorIdSeq(c.learnable);
    var d := DescriptorIdSeq(c.initial);
    var ids := CatalogIds(c);
    forall k | 0 <= k < |ids|
      ensures ids[k] == k + 1
    {
      if k < |a| {
        assert ids[k] == a[k];
      } else if k < |a| + |b| {
        assert ids[k] == b[k - |a|];
      } else {
        assert ids[k] == d[k - |a| - |b|];
      }
    }
  }

  // ---------------------------------------------------------------------------------------
  // The initial deal.

  function Offered(ds: seq<SpellDescriptor>): (r: seq<LearnableSpell>)
    ensures |r| == |ds| && forall k {:trigger r[k]} :: 0 <= k < |r| ==> r[k] == LearnableSpell(ds[k], 0)
  {
    if ds == [] then [] else [LearnableSpell(ds[0], 0)] + Offered(ds[1..])
  }

  function Owned(ds: seq<SpellDescriptor>): (r: seq<Spell>)
    ensures |r| == |ds| && forall k {:trigger r[k]} :: 0 <= k < |r| ==> r[k] == Spell(ds[k], false)
  {
    if ds == [] then [] else [Spell(ds[0], false)] + Owned(ds[1..])
  }

  function OfferedDescriptors(offers: seq<LearnableSpell>): (r: seq<SpellDescriptor>)
    ensures |r| == |offers| && forall k {:trigger r[k]} :: 0 <= k < |r| ==> r[k] == offers[k].descriptor
  {
    if offers == [] then [] else [offers[0].descriptor] + OfferedDescriptors(offers[1..])
  }

  /** The state `make_initial_state` deals from the shuffled spells and orders. */
  function InitialView(shuffledOrders: seq<Order>, shuffledSpells: seq<SpellDescriptor>, initialSpells: seq<SpellDescriptor>): GameView
    requires |shuffledSpells| >= 6 && |shuffledOrders| >= 5
  {
    GameView(
      [3, 0, 0, 0], 0, Owned(initialSpells),
      Offered(shuffledSpells[..6]), shuffledSpells[6..],
      shuffledOrders[..5], shuffledOrders[5..],
      0, 0, 0)
  }

  /** The deal: six offers with reward 0 and five open orders taken from the front of the
      shuffled lists, the rest queued in order; three units of the first resource; every
      initial spell owned and available. */
  lemma InitialDeal(shuffledOrders: seq<Order>, shuffledSpells: seq<SpellDescriptor>, initialSpells: seq<SpellDescriptor>)
    requires |shuffledSpells| >= 6 && |shuffledOrders| >= 5
    ensures var v := InitialView(shuffledOrders, shuffledSpells, initialSpells);
      && |v.learnableSpells| == 6 && |v.orders| == 5
      && (forall k :: 0 <= k < 6 ==> v.learnableSpells[k].reward == 0)
      && OfferedDescriptors(v.learnableSpells) + v.nextLearnableSpells == shuffledSpells
      && v.orders + v.nextOrders == shuffledOrders
      && v.inventory == [3, 0, 0, 0]
      && |v.spells| == |initialSpells|
      && (forall k :: 0 <= k < |initialSpells| ==> v.spells[k].descriptor == initialSpells[k] && !v.spells[k].exhausted)
      && v.score == 0 && v.potionsBrewed == 0 && v.moves == 0
  {
  }

  /** The reward loop of Learn: one more reward point for each of the first `n` offers. */
  method RewardFront(offers: seq<LearnableSpell>, n: nat) returns (r: seq<LearnableSpell>)
    requires n <= |offers|
    ensures r == BumpRewards(offers, n)
  {
    r := offers;
    for k := 0 to n
      invariant r == BumpRewards(offers, k)
    {
      r := r[k := r[k].(reward := r[k].reward + 1)];
    }
  }

  // ---------------------------------------------------------------------------------------
  // The mutable game state.

  class GameState {
    var inventory: Inventory
    var score: nat
    var spells: seq<Spell>
    var learnableSpells: seq<LearnableSpell>
    var nextLearnableSpells: seq<SpellDescriptor>
    var orders: seq<Order>
    var nextOrders: seq<Order>
    var potionsBrewed: nat
    var nextId: nat
    var moves: nat

    function View(): GameView
      reads this
    {
      GameView(inventory, score, spells, learnableSpells, nextLearnableSpells, orders, nextOrders,
        potionsBrewed, nextId, moves)
    }

    /** `make_initial_state` from the already shuffled lists (the shuffling itself is not part
        of the model). Dealing from a list that is too short panics in the game; here the
        lists must be long enough. */
    constructor Init(shuffledOrders: seq<Order>, shuffledSpells: seq<SpellDescriptor>, initialSpells: seq<SpellDescriptor>)
      requires |shuffledSpells| >= 6 && |shuffledOrders| >= 5
      ensures View() == InitialView(shuffledOrders, shuffledSpells, initialSpells)
    {
      var queue := shuffledSpells;
      var offers: seq<LearnableSpell> := [];
      for k := 0 to 6
        invariant queue == shuffledSpells[k..] && offers == Offered(shuffledSpells[..k])
      {
        assert shuffledSpells[..k + 1] == shuffledSpells[..k] + [queue[0]];
        offers := offers + [LearnableSpell(queue[0], 0)];
        queue := queue[1..];
      }
      var orderQueue := shuffledOrders;
      var open: seq<Order> := [];
      for k := 0 to 5
        invariant orderQueue == shuffledOrders[k..] && open == shuffledOrders[..k]
      {
        assert shuffledOrders[..k + 1] == shuffledOrders[..k] + [orderQueue[0]];
        open := open + [orderQueue[0]];
        orderQueue := orderQueue[1..];
      }
      var owned: seq<Spell> := [];
      for k := 0 to |initialSpells|
        invariant owned == Owned(initialSpells[..k])
      {
        assert initialSpells[..k + 1] == initialSpells[..k] + [initialSpells[k]];
        owned := owned + [Spell(initialSpells[k], false)];
      }
      assert initialSpells[..|initialSpells|] == initialSpells;
      inventory := [3, 0, 0, 0];
      nextId := 0;
      learnableSpells := offers;
      nextLearnableSpells := queue;
      orders := open;
      nextOrders := orderQueue;
      potionsBrewed := 0;
      score := 0;
      moves := 0;
      spells := owned;
    }

    /** `apply_move`, proved against `Transition`. A panic is returned as a failure together
        with whatever the move had changed when it struck. */
    method ApplyMove(m: Move) returns (r: Outcome<Panic>)
      modifies this
      ensures Applied(r, View()) == Transition(old(View()), m)
    {
      match m
      case Wait => r := ApplyWait();
      case Brew(id) => r := ApplyBrew(id);
      case Learn(id) => r := ApplyLearn(id);
      case Cast(id, times) => r := ApplyCast(id, times);
    }

    /** Wait: every owned spell is made available again. */
    method ApplyWait() returns (r: Outcome<Panic>)
      modifies this
      ensures Applied(r, View()) == Transition(old(View()), Wait)
    {
      var refreshed := spells;
      for k := 0 to |refreshed|
        invariant |refreshed| == |spells|
        invariant forall j :: 0 <= j < k ==> refreshed[j] == Spell(spells[j].descriptor, false)
        invariant forall j :: k <= j < |refreshed| ==> refreshed[j] == spells[j]
      {
        refreshed := refreshed[k := refreshed[k].(exhausted := false)];
      }
      assert refreshed == Refreshed(spells);
      spells := refreshed;
      return Pass;
    }

    /** Brew: the first open order with the id is paid for and scored, then the next queued
        order is opened. */
    method ApplyBrew(id: nat) returns (r: Outcome<Panic>)
      modifies this
      ensures Applied(r, View()) == BrewTransition(old(View()), id)
    {
      ghost var v := View();
      var found := Find(orders, OrderId, id);
      if found.None? {
        return Fail(OrderNotFound);
      }
      var order := orders[found.value];
      assert order == v.orders[FirstIndex(v.orders, OrderId, id).value];
      if !CanAfford(inventory, order.brewingPrice) {
        return Fail(CannotAfford);
      }
      score := score + order.reward;
      potionsBrewed := potionsBrewed + 1;
      inventory := ApplyPrice(inventory, order.brewingPrice);
      ghost var paid := v.(score := score, potionsBrewed := potionsBrewed, inventory := inventory);
      assert View() == paid;
      if nextOrders == [] {
        return Fail(NoItemsLeft);
      }
      var next := nextOrders[0];
      nextOrders := nextOrders[1..];
      orders := orders + [next];
      assert View() == paid.(orders := v.orders + [v.nextOrders[0]], nextOrders := v.nextOrders[1..]);
      return Pass;
    }

    /** Learn: the first offer with the id is paid for by its position and owned; the offers
        in front of it gain a reward point and the next queued spell, if any, is offered. */
    method ApplyLearn(id: nat) returns (r: Outcome<Panic>)
      modifies this
      ensures Applied(r, View()) == LearnTransition(old(View()), id)
    {
      ghost var v := View();
      var found := Find(learnableSpells, OfferId, id);
      if found.None? {
        return Fail(SpellNotFound);
      }
      var index := found.value;
      var learnable := learnableSpells[index];
      assert index == FirstIndex(v.learnableSpells, OfferId, id).value;
      var price := Search.LearnPrice(index);
      if !CanAfford(inventory, price) {
        return Fail(CannotAffordLearning);
      }
      var offers := RewardFront(learnableSpells, index);
      inventory := ApplyPrice(inventory, price);
      spells := spells + [Spell(learnable.descriptor, false)];
      learnableSpells := offers;
      ghost var learned := v.(inventory := inventory, spells := spells, learnableSpells := offers);
      assert View() == learned;
      if nextLearnableSpells != [] {
        var next := nextLearnableSpells[0];
        nextLearnableSpells := nextLearnableSpells[1..];
        learnableSpells := learnableSpells + [LearnableSpell(next, 0)];
      }
      return Pass;
    }

    /** Cast: the first owned spell with the id is paid for `times` times and exhausted. */
    method ApplyCast(id: nat, times: nat) returns (r: Outcome<Panic>)
      modifies this
      ensures Applied(r, View()) == CastTransition(old(View()), id, times)
    {
      var found := Find(spells, SpellId, id);
      if found.None? {
        return Fail(SpellNotFound);
      }
      var index := found.value;
      var spell := spells[index];
      if !CanAfford(inventory, spell.descriptor.castingPrice) {
        return Fail(CannotAfford);
      }
      if spell.exhausted {
        return Fail(SpellExhausted);
      }
      var paid := inventory;
      for t := 0 to times
        invariant paid == ScaledPrice(inventory, spell.descriptor.castingPrice, t)
      {
        paid := ApplyPrice(paid, spell.descriptor.castingPrice);
      }
      inventory := paid;
      spells := spells[index := Spell(spell.descriptor, true)];
      return Pass;
    }
  }

  /** One counted turn of the game from view `v`: the game was not over, `m` names an
      order, offer or spell of the game (as the engine's answers do), applying it passed, and
      the move counter went up, giving `v'`. */
  ghost predicate Turn(v: GameView, m: Move, v': GameView)
  {
    && v.potionsBrewed < 6 && v.moves < 100
    && Search.Refers(Project(v), m)
    && Transition(v, m).outcome == Pass
    && v' == Transition(v, m).after.(moves := v.moves + 1)
  }

  /** The move loop of `main`: while fewer than six potions are brewed and fewer than 100
      moves are made, ask the engine for a move, apply it and count it. `views` and `ms` trace
      the game: the views it passed through, from the first, and the moves counted between
      them. A panic ends the game with the state it left; `move` is then the move that
      panicked, from the last view of the trace. */
  method Play(state: GameState) returns (r: Outcome<Panic>, ghost views: seq<GameView>, ghost ms: seq<Move>, ghost move: Move)
    modifies state
    ensures |views| == |ms| + 1 && views[0] == old(state.View())
    ensures forall k :: 0 <= k < |ms| ==> Turn(views[k], ms[k], views[k + 1])
    ensures r.Pass? ==> state.View() == views[|ms|] && (state.potionsBrewed >= 6 || state.moves >= 100)
    ensures r.Fail? ==> (
      && views[|ms|].potionsBrewed < 6 && views[|ms|].moves < 100
      && Search.Refers(Project(views[|ms|]), move)
      && Applied(r, state.View()) == Transition(views[|ms|], move))
    ensures r.Fail? ==> r.error != OrderNotFound && (r.error == SpellNotFound ==> move.Cast?)
    ensures old(state.moves) <= state.moves
    ensures state.moves <= if old(state.moves) < 100 then 100 else old(state.moves)
  {
    views, ms, move := [state.View()], [], Wait;
    while state.potionsBrewed < 6 && state.moves < 100
      invariant |views| == |ms| + 1 && views[0] == old(state.View())
      invariant forall k :: 0 <= k < |ms| ==> Turn(views[k], ms[k], views[k + 1])
      invariant state.View() == views[|ms|]
      invariant old(state.moves) <= state.moves
      invariant state.moves <= if old(state.moves) < 100 then 100 else old(state.moves)
      decreases 100 - state.moves
    {
      ghost var m;
      r, m := PlayTurn(state);
      if r.Fail? {
        move := m;
        return;
      }
      TraceGrows(views, ms, m, state.View());
      views, ms := views + [state.View()], ms + [m];
    }
    r := Pass;
  }

  /** One turn of the move loop of `main`: ask the engine for a move from the current state,
      apply it and count it. A move that passes completes a `Turn`; one that panics leaves the
      state as the transition left it, uncounted. `m` is the move asked for. */
  method PlayTurn(state: GameState) returns (r: Outcome<Panic>, ghost m: Move)
    requires state.potionsBrewed < 6 && state.moves < 100
    modifies state
    ensures r.Pass? ==> Turn(old(state.View()), m, state.View())
    ensures r.Fail? ==> (
      && Search.Refers(Project(old(state.View())), m)
      && Applied(r, state.View()) == Transition(old(state.View()), m))
    ensures r.Fail? ==> r.error != OrderNotFound && (r.error == SpellNotFound ==> m.Cast?)
  {
    var next := EngineMove(state.View());
    m := next;
    ghost var before := state.View();
    r := state.ApplyMove(next);
    ReferredMoveFound(before, next);
    if r.Pass? {
      ghost var applied := state.View();
      state.moves := state.moves + 1;
      TurnTaken(before, next, applied, state.View());
    }
  }

  /** `get_move` as the game calls it: the game state is projected onto the engine's player
      state (`Project`), which the engine searches for a move. */
  method EngineMove(v: GameView) returns (m: Move)
    ensures Search.Refers(Project(v), m)
  {
    var next, tree, answer, left, count, done, runs, popped := Search.GetMove(Project(v));
    m := next;
  }

  /** Counting a move that passed completes a turn. */
  lemma TurnTaken(v: GameView, m: Move, applied: GameView, v': GameView)
    requires v.potionsBrewed < 6 && v.moves < 100
    requires Search.Refers(Project(v), m)
    requires Applied(Pass, applied) == Transition(v, m)
    requires v' == applied.(moves := applied.moves + 1)
    ensures Turn(v, m, v')
  {
  }

  /** A trace of turns grows by a turn taken from its last view. */
  lemma TraceGrows(views: seq<GameView>, ms: seq<Move>, m: Move, v: GameView)
    requires |views| == |ms| + 1 && forall k :: 0 <= k < |ms| ==> Turn(views[k], ms[k], views[k + 1])
    requires Turn(views[|ms|], m, v)
    ensures forall k :: 0 <= k < |ms| + 1 ==> Turn((views + [v])[k], (ms + [m])[k], (views + [v])[k + 1])
  {
    forall k | 0 <= k < |ms| + 1
      ensures Turn((views + [v])[k], (ms + [m])[k], (views + [v])[k + 1])
    {
      if k < |ms| {
        assert (views + [v])[k] == views[k] && (views + [v])[k + 1] == views[k + 1] && (ms + [m])[k] == ms[k];
      }
    }
  }
}
