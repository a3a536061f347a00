# Potion engine and polyomino packer, modelled in Dafny

The repository holds two independent programs, and this project models the core of each.

**The potion game** (Rust, `rust/src/solution.rs` and `rust/src/main.rs`).
A player holds four tiers of ingredients and owns spells that convert ingredients. The player
also sees a window of orders (potions to brew for a reward) and of offered spells (to learn).
Each turn the engine runs a best-first search over hypothetical player states and proposes a
move: Wait, Brew, Learn or Cast. The live game then applies that move to its mutable game
state, and panics when the move is illegal. The game ends after six potions or 100 moves.

The model has four modules:
- `Potions` holds the shared rules: affordability, adding a price, the repeatable test, the
  reward bump and `swap_remove`.
- `Search` holds the engine:
  - the four successor constructors, as pure functions on copies of the parent state;
  - the expansion of a node, the frontier pop and the bounded search loop, over an arena of
    nodes linked by parent index;
  - the path walk and the choice of the move.
- `Game` holds the live game:
  - a `GameState` class whose `ApplyMove` is proved against a function `Transition` of the
    old state;
  - the catalogue and its id counter, the initial deal and the capped move loop.
- `Wrappers` holds `Option` and `Outcome`.

**The polyomino packer** (TypeScript, `src/index.ts`), modelled in module `Packing`.
It packs six pieces into a 6 by 7 board by backtracking. For each piece not yet on the board,
it tries each of its four rotations at each position found by a row-major scan. It places the
piece, recurses, and removes the piece again. A full board is stored unless it, or its half
turn, is already stored.
- The board is a class over a two-dimensional array.
- `place` and `remove` are proved against a value-level function `Written`.
- The piece flags are a `bool` array.
- The solution store is a sequence field.

## Model

| member | source | states |
|---|---|---|
| `Potions.CanAfford` | rust/src/solution.rs:82-87 | affordable exactly when every holding is strictly greater than minus the price on that axis, so a zero-price axis still needs a positive holding |
| `Potions.ApplyPrice` | rust/src/solution.rs:89-94 | each of the four axes gains the price on that axis |
| `Potions.AffordableIffPositiveAfter` | rust/src/main.rs:187-199 | a price is affordable exactly when paying it leaves every axis strictly positive |
| `Potions.ScaledPrice` | rust/src/main.rs:271-273 | paying a price `times` times adds `times` times the price on every axis |
| `Potions.IsRepeatable` | rust/src/main.rs:300 | a descriptor is repeatable exactly when some entry of its price is negative |
| `Potions.Refreshed` | rust/src/solution.rs:248-251 | every spell keeps its descriptor and loses its exhausted flag; the length is kept |
| `Potions.RefreshedIdempotent` | rust/src/main.rs:203-207 | clearing the flags twice gives what clearing them once gives |
| `Potions.BumpRewards` | rust/src/solution.rs:230-233 | offers in front of the index gain one reward point, the others keep theirs, and all keep their descriptors |
| `Potions.SwapRemove` | rust/src/solution.rs:164 | one shorter; the last element takes the removed slot and every other position is kept; as multisets, the result plus the removed element is the input |
| `Search.Compare` | rust/src/solution.rs:116-128 | Greater, Less or Equal exactly as the first node's score is above, below or equal to the second's |
| `Search.MakeBrew` | rust/src/solution.rs:150-174 | a child exists exactly when the brewing price is affordable; it links to the parent and records Brew of the order's id |
| `Search.BrewEffect` | rust/src/solution.rs:159-165 | the child gains the reward, one potion and the brewing price; it loses exactly the brewed order by swap-remove; spells, offers and moves are unchanged |
| `Search.MakeCast` | rust/src/solution.rs:176-207 | no child when the spell is exhausted, when a non-repeatable spell has a multiplier above 1, or when the price is unaffordable; otherwise it records Cast with the id and the multiplier |
| `Search.CastEffect` | rust/src/solution.rs:192-197 | the price is paid once whatever the multiplier; only the spell at the index becomes exhausted; nothing else changes |
| `Search.CastExhausts` | rust/src/solution.rs:183-196 | a spell cast in a child cannot be cast again from that child |
| `Search.RepeatableGating` | rust/src/solution.rs:186-188 | with a multiplier above 1, a child exists exactly when the spell is repeatable and a single cast would succeed |
| `Search.MakeLearn` | rust/src/solution.rs:209-243 | a child exists exactly when minus the index in the first resource is affordable; it records Learn of the offer's id |
| `Search.LearnEffect` | rust/src/solution.rs:219-234 | the first resource changes by reward minus index and the others are kept; the spell is appended unexhausted; offers are swap-removed with a reward point for each offer in front; nothing else changes |
| `Search.MakeWait` | rust/src/solution.rs:245-259 | always a child: it links to the parent, records Wait, and differs from the parent only in the cleared exhausted flags |
| `Search.WaitIdempotent` | rust/src/solution.rs:245-259 | waiting twice gives the state waiting once gives |
| `Search.BrewChildGood` | rust/src/solution.rs:278-280 | a brewing child stays within the snapshot, names an order of it, keeps or raises the score and leaves every resource positive |
| `Search.BrewChildrenGood` | rust/src/solution.rs:278-280 | every brewing child of a node is good |
| `Search.LearnChildGood` | rust/src/solution.rs:281-283 | a learning child stays within the snapshot and names one of its offers; a learned spell was on offer there |
| `Search.RemainingOffers` | rust/src/solution.rs:228-233 | after the swap-remove and the reward bump, every offer left was an offer before |
| `Search.LearnChildrenGood` | rust/src/solution.rs:281-283 | every learning child of a node is good |
| `Search.CastChildGood` | rust/src/solution.rs:284-288 | a casting child with multiplier 1 to 3 names a spell owned or offered in the snapshot and leaves every resource positive |
| `Search.SpellCastsGood` | rust/src/solution.rs:285-287 | the three casting children of one owned spell are good |
| `Search.CastChildrenGood` | rust/src/solution.rs:284-288 | every casting child of a node, with each multiplier, is good |
| `Search.ChildrenGood` | rust/src/solution.rs:277-288 | every child an expansion pushes is linked to its parent, records a non-Wait move naming the snapshot, stays within the snapshot, does not lose score and leaves every resource positive |
| `Search.Push` | rust/src/solution.rs:261-265 | a present child is appended to the arena and its index joins the frontier; an absent one changes nothing |
| `Search.PushBrews` | rust/src/solution.rs:278-280 | the brewing children of every order, in order, are appended and all join the frontier |
| `Search.PushLearns` | rust/src/solution.rs:281-283 | the learning children of every offer, in order, are appended and all join the frontier |
| `Search.PushCasts` | rust/src/solution.rs:284-288 | the casting children of every spell, with multipliers 1, 2 and 3, are appended and all join the frontier |
| `Search.PushSpellCasts` | rust/src/solution.rs:285-287 | the three casting children of one spell are appended in multiplier order |
| `Search.Expand` | rust/src/solution.rs:277-289 | the arena grows by exactly the node's children (brews, then learns, then casts; no Wait), and the frontier gains exactly their indices |
| `Search.ExtendTree` | rust/src/solution.rs:277-288 | appending the children of any node of a search tree gives a search tree whose every node was generated from its parent |
| `Search.Pop` | rust/src/solution.rs:272 | none exactly when the frontier is empty; otherwise a member no other member outranks is removed, the rest is the frontier minus it as a multiset, and a frontier without repeats leaves a rest without repeats that does not hold the popped node |
| `Search.SearchStep` | rust/src/solution.rs:272-289 | expanding the popped node appends exactly its children to the arena and records the expansion and where its run starts; the next pop is none exactly when the grown frontier is empty, and otherwise the grown frontier is the new frontier plus that node, as a multiset; the loop invariant (tree shape, layout, best-first order, no repeats, every node expanded, waiting or popped) is kept |
| `Search.LaidStep` | rust/src/solution.rs:277-288 | appending the children of the expanded node keeps the arena laid out as the runs of the expansions, root first, the new run last and ending the arena, and every expanded node in the arena before its own run |
| `Search.BestFirstStep` | rust/src/solution.rs:272-289 | expanding a node that no unexpanded node outranks keeps every expansion best-first among the nodes present when it was popped |
| `Search.DistinctStep` | rust/src/solution.rs:272-289 | a popped node that was neither expanded nor waiting joins the expanded nodes without creating a repeat, and no node then waiting or popped next has been expanded |
| `Search.ShapeStep` | rust/src/solution.rs:272-289 | expanding the best unexpanded node keeps the arena a search tree laid out by expansions that are best-first and never repeat |
| `Search.WaitStep` | rust/src/solution.rs:272-289 | after the expansion and the next pop the unexpanded nodes are again the new frontier and the popped node, without repeats or expanded nodes, the popped node outranking the frontier, and every node is expanded, waiting or popped |
| `Search.Finish` | rust/src/solution.rs:272-293 | the final pop turns what the loop left into the search's answer: every node expanded, left, the answer or dropped; no dropped node means nothing is left and there is no answer; the dropped node comes after budget + 1 expansions and no unexpanded node outranks it; the answer outranks every node left |
| `Search.DoSearch` | rust/src/solution.rs:267-294 | `Searched`: the arena is a search tree rooted at the snapshot, laid out as the runs of the expansions' children in order, the root expanded first; each expanded node was already in the arena when it was popped, no node is expanded twice, and each expansion took a node that no unexpanded node present at that moment outranked; between 1 and budget + 1 expansions; every node is expanded, left in the frontier, the answer, or the node dropped when the counter ran out; with no node dropped every node was expanded and there is no answer; a node is dropped only after budget + 1 expansions and no unexpanded node outranks it; an answer exists only when a node was dropped, is a non-root unexpanded node and outranks every node left |
| `Search.GetMove` | rust/src/solution.rs:328-348 | the ghost results satisfy `Searched` for the snapshot and the budget of 1000; the move is the last move of the answer node, or Wait when there is no answer; it names an order, offer or spell of the snapshot, with a multiplier from 1 to 3 |
| `Search.BuildSeq` | rust/src/solution.rs:296-307 | the result is the chain from the node through its parents back to, and excluding, the Initial node |
| `Search.PathShape` | rust/src/solution.rs:296-307 | in a search tree that chain starts at the node, steps from each node to its parent, never holds the root and ends at a child of the root |
| `Game.Transition` | rust/src/main.rs:201-278 | Wait never panics; only Brew can run out of queued orders; every other panic leaves the state unchanged; no move lowers the score or touches the move count or the id counter |
| `Game.BrewTransition` | rust/src/main.rs:208-222 | panics only for a missing order, an unaffordable price or an empty queue, and for a missing order exactly when no open order has the id; only the score, the potions, the inventory and the orders change; the score never falls and the potions grow by at most one; the open orders only gain queued ones, front first |
| `Game.LearnTransition` | rust/src/main.rs:223-257 | panics only for a missing offer, exactly when no offer has the id, or an unaffordable price, and then changes nothing; only the inventory, the owned spells and the offers change; a success adds one owned spell after the others; offers and queued offers keep their total number |
| `Game.CastTransition` | rust/src/main.rs:258-276 | panics only for a missing spell, exactly when no owned spell has the id, an unaffordable price or an exhausted spell, and then changes nothing; only the inventory and the spells' exhausted flags change; a success exhausts a previously available spell with that id |
| `Game.Project` | rust/src/solution.rs:325-336 | the snapshot handed to the engine has the game's inventory, score, move and potion counts, owned spells, offers and open orders, and nothing of the queues |
| `Search.StateScore` | rust/src/solution.rs:137-139 | a state is estimated by its score, which is never negative |
| `Search.Root` | rust/src/solution.rs:141-148 | the root holds the snapshot, has no parent and no move, and is estimated by the snapshot's score |
| `Search.LearnPrice` | rust/src/solution.rs:215 | the price takes the index from the first resource and nothing else |
| `Search.LearnAffordable` | rust/src/solution.rs:215-216 | learning is affordable exactly when the first holding exceeds the index and every other holding is positive |
| `Game.OrderFromRow` | rust/src/main.rs:287-293 | the order takes the counter's id; each amount is the row's amount brought into -128..127 modulo 256 and the reward is the row's reward brought below 2^32 modulo 2^32; a row already in range is kept exactly |
| `Game.DescriptorFromRow` | rust/src/main.rs:294-309 | the spell takes the row as its price and the counter's id, and is repeatable exactly when some amount of the price is negative |
| `Game.FirstIndex` | rust/src/main.rs:209-213 | the position found holds the id and no earlier position does; none exactly when no position holds the id |
| `Game.Find` | rust/src/main.rs:224-228 | the scan returns the first position holding the id, or none |
| `Game.WaitEffect` | rust/src/main.rs:203-207 | Wait never panics, clears every exhausted flag, changes nothing else, and a second Wait changes nothing |
| `Game.BrewMissing` | rust/src/main.rs:209-213 | brewing an id no open order has panics and changes nothing |
| `Game.BrewOutcome` | rust/src/main.rs:208-222 | an unaffordable order panics with no effect; otherwise it scores the reward and one potion and pays the price; then it deals the next queued order, or panics with that payment kept when the queue is empty; the brewed order stays open |
| `Game.LearnOutcome` | rust/src/main.rs:223-257 | succeeds exactly when the player holds more than the index in the first resource and at least one of every other; a failure changes nothing; a success pays the index, owns the spell unexhausted, bumps the offers in front and deals the next queued offer with reward 0; the learned offer stays |
| `Game.CastOutcome` | rust/src/main.rs:258-276 | one price is tested for affordability before exhaustion, and both failures change nothing; a success pays the price `times` times and exhausts that spell and no other |
| `Game.CastTwicePanics` | rust/src/main.rs:258-276 | after a successful cast, casting the same id again panics |
| `Game.ReferredMoveFound` | rust/src/main.rs:208-228 | a move the engine proposes never panics for a missing order, nor for a missing offer unless it is a Cast |
| `Game.ToU32` | rust/src/main.rs:291 | the value is brought below 2^32 modulo 2^32 and is kept when already in range |
| `Game.ToI8` | rust/src/main.rs:292 | the value is brought into -128..127 modulo 256 and is kept when already in range |
| `Game.BuildCatalog` | rust/src/main.rs:281-310 | orders, then learnable spells, then initial spells take ids from one counter starting at 1; the ids are strictly increasing; every spell is repeatable exactly when its price consumes something |
| `Game.CatalogIdsAreCounter` | rust/src/main.rs:281-285 | ids handed out by the counter are 1, 2, 3, ... in catalogue order |
| `Game.InitialDeal` | rust/src/main.rs:21-56 | six offers with reward 0 and five orders are taken from the front of the shuffled lists and the rest is queued in order; the inventory is 3, 0, 0, 0; every initial spell is owned unexhausted; the counters are 0 |
| `Game.RewardFront` | rust/src/main.rs:243-249 | the loop gives each offer in front of the index one reward point |
| `Game.GameState.Init` | rust/src/main.rs:12-57 | the new state is the initial deal of the shuffled lists |
| `Game.GameState.ApplyMove` | rust/src/main.rs:201-278 | the outcome and the new state are those of `Transition` on the old state |
| `Game.GameState.ApplyWait` | rust/src/main.rs:203-207 | the new state is that of `Transition` for Wait: every exhausted flag cleared |
| `Game.GameState.ApplyBrew` | rust/src/main.rs:208-222 | the outcome and the new state are those of `BrewTransition`, the Brew case of `Transition`, including the state left when the queue is empty |
| `Game.GameState.ApplyLearn` | rust/src/main.rs:223-257 | the outcome and the new state are those of `LearnTransition`, the Learn case of `Transition` |
| `Game.GameState.ApplyCast` | rust/src/main.rs:258-276 | the outcome and the new state are those of `CastTransition`, the Cast case of `Transition`, including the price paid `times` times |
| `Game.Play` | rust/src/main.rs:317-322 | the trace starts at the initial state and each step is a `Turn`: the game was not over, the move names an order, offer or spell of the state, its `Transition` passed, and the next state is that transition's result with one more move; without a panic the final state is the trace's last and has six potions or 100 moves; a panic is the outcome of `Transition` on the trace's last state, with fewer than six potions and 100 moves, and is never a missing order, nor a missing offer unless the move is a Cast; the move count only grows and never passes 100 unless it started above |
| `Game.PlayTurn` | rust/src/main.rs:318-320 | a passing move completes a `Turn` from the old state to the new one; a panicking move names the old state's orders, offers or spells, and the panic and new state are those of `Transition` on the old state; the panic is never a missing order, nor a missing offer unless the move is a Cast |
| `Game.EngineMove` | rust/src/solution.rs:324-336 | the move the engine answers for the game's projected state names an order, offer or spell of it |
| `Game.TurnTaken` | rust/src/main.rs:318-320 | counting a move that passed from a running game completes a `Turn` |
| `Game.TraceGrows` | rust/src/main.rs:317-321 | a trace of turns extended by a turn from its last state is a trace of turns |
| `Packing.MakeRectangleData` | src/index.ts:151-160 | a fresh height by width rectangle whose every cell is 0 |
| `Packing.Rotated` | src/index.ts:40-50 | width and height swap, the id is kept, and cell (i, j) is cell (j, width - i - 1) of the original |
| `Packing.Rotate` | src/index.ts:40-50 | the piece the nested loops build is the quarter turn `Rotated` |
| `Packing.Rot180` | src/index.ts:194-206 | cell (y, x) of the half turn is the cell in the opposite corner |
| `Packing.Rot180Involutive` | src/index.ts:194-206 | two half turns give the rectangle back |
| `Packing.RotatedTwice` | src/index.ts:164-165 | two quarter turns of a piece are its half turn |
| `Packing.RotatedFourTimes` | src/index.ts:162-171 | four quarter turns give the piece back |
| `Packing.MakeRotations` | src/index.ts:162-171 | the four orientations are the piece and three successive quarter turns, all well shaped with the piece's id, and a fifth turn is the piece again |
| `Packing.Written` | src/index.ts:96-110 | exactly the board cells under non-empty piece cells take the value; every other cell is kept |
| `Packing.PartlyWritten` | src/index.ts:96-110 | the cells under non-empty piece cells before a given piece cell take the value; every other cell is kept |
| `Packing.FitsCanWrite` | src/index.ts:242 | a position the placement test accepts is one `place` does not throw on |
| `Packing.RemoveUndoesPlace` | src/index.ts:242-244 | after a successful place, remove of the same piece at the same position does not throw and gives back the board exactly |
| `Packing.Board.constructor` | src/index.ts:69-71 | a board of the given size whose cells are all 0 |
| `Packing.Board.CanPlace` | src/index.ts:73-94 | false when the piece overhangs the right or bottom edge; otherwise true exactly when every non-empty piece cell lands on an empty board cell |
| `Packing.Board.Write` | src/index.ts:97-109 | succeeds exactly when every board cell under a non-empty piece cell is inside the board and holds the expected value; success writes exactly those cells; failure happens at a piece cell whose board cell is off the board or holds something else, every covered cell before it in row-major order passed the check, and exactly those cells are written |
| `Packing.Board.WriteRow` | src/index.ts:98-108 | one piece row is written; or the write fails at a blocked cell of that row, every covered cell before it passed the check, and exactly those cells are written |
| `Packing.Board.WriteAt` | src/index.ts:99-107 | an empty piece cell is skipped; otherwise the cell under it is written when it is inside the board and holds the expected value; when not, that cell is blocked on the original board, the whole write cannot succeed, and nothing changes |
| `Packing.Board.Place` | src/index.ts:96-110 | throws exactly when some covered cell is off the board or not empty; otherwise exactly the covered cells take the piece's id; a throw comes at the first such cell in row-major order, with the covered cells before it already holding the id |
| `Packing.Board.Remove` | src/index.ts:112-126 | throws exactly when some covered cell is off the board or does not hold the piece's id; otherwise exactly the covered cells become 0; a throw comes at the first such cell in row-major order, with the covered cells before it already cleared |
| `Packing.Board.FindNextPlaceFor` | src/index.ts:128-137 | a returned position fits, lies in the rows from the previous row on and the columns from one past the previous column on, and is the first fit of that region in row-major order; none means nothing in that region fits |
| `Packing.Board.ScanRow` | src/index.ts:130-134 | the first column from the start on where the piece fits in the row, or none when it fits nowhere from the start on |
| `Packing.SameUpToHalfTurnSymmetric` | src/index.ts:194-206 | being equal up to a half turn does not depend on which grid is turned |
| `Packing.DuplicateOfHalfTurn` | src/index.ts:177-206 | a board and its half turn are rejected alike |
| `Packing.StoredIsRejected` | src/index.ts:177-216 | once stored, a board and its half turn are both rejected |
| `Packing.AppendKeepsDistinct` | src/index.ts:214 | appending a board that is not a duplicate keeps the store free of duplicates |
| `Packing.SameCells` | src/index.ts:181-188 | the first scan reports same exactly when the stored grid equals the board |
| `Packing.SameHalfTurn` | src/index.ts:195-202 | the second scan reports same exactly when the stored grid equals the board's half turn |
| `Packing.CopyCells` | src/index.ts:208-213 | the stored copy has the board's cells |
| `Packing.CountTrue` | src/index.ts:227-232 | the number of set flags is at most the number of pieces; the count only ties the depth of `Packing.Packer.Go` to the placed flags, which bounds its recursion; it is not an operation of the packer |
| `Packing.CountTrueSet` | src/index.ts:232 | setting an unset flag adds one to the count, so each recursive call of `Packing.Packer.Go` is one level deeper (used for its termination only) |
| `Packing.CountTrueNone` | src/index.ts:169 | with no flag set the count is 0, so the packer starts at depth 1 (used for termination only) |
| `Packing.Packer.constructor` | src/index.ts:162-175 | piece k gets id k + 1 and its four orientations; the 6 by 7 board is empty; no piece is placed; nothing is stored |
| `Packing.Packer.ProcessSolution` | src/index.ts:177-216 | stores a copy of the board and answers true exactly when neither the board nor its half turn is already stored; otherwise the store is unchanged and the answer is false; the store stays free of duplicates |
| `Packing.Packer.Go` | src/index.ts:220-251 | the search ends, the depth stays one more than the number of placed pieces, the board and every placed flag are as they were, and solutions are only added |
| `Packing.Packer.TryPiece` | src/index.ts:227-250 | marking a piece, trying its orientations and clearing the mark leaves the board and the flags as they were |
| `Packing.Packer.TryOrientation` | src/index.ts:233-247 | each place, recursive search and remove leaves the board and the flags as they were, and the scan of positions ends |
| `Packing.Solve` | src/index.ts:253 | the solutions returned are 7 by 6 boards, no two of them equal up to a half turn |

## Left out

- Shuffling: the orders and spells are shuffled with a seeded `Hc128Rng`, a foreign library. The model takes the already shuffled lists as inputs to `Game.GameState.Init` and `Game.InitialDeal`.
- Static tables: `SPELLS_ARRAY`, `ORDERS_ARRAY`, `INITIAL_SPELLS_ARRAY` and `pieceData` are data. They are the arguments of `Game.BuildCatalog` and `Packing.Solve`.
- Printing: `print_seq`, every `println!`, `Piece.print`, `Board.print`, the `console.log` calls and the `badTries` counter are output only.
- Sharing: `Rc` sharing and lifetimes are not modelled. Descriptors are values, and the search tree is an arena of nodes whose parent is an index.
- Floating point: the `f64` estimated score and its `10e-12` tolerance become the integer score. Two nodes compare Equal exactly when their scores are equal.
- Heap ties: the tie order of `BinaryHeap` is not modelled. `Search.Pop` may return any node of maximal score.
- Integer widths: `i8` inventories, `u32` scores and rewards, and the `as i8` casts in learning prices are unbounded integers. The exception is the catalogue casts of `main`, modelled by `Game.ToU32` and `Game.ToI8`.
- Search.MakeLearn: does not model the `as i8` truncation of reward minus index, because inventories are unbounded.
- Search.MakeWait: is modelled and proved, but `Search.Expand` does not push it, because the push of the wait child is commented out in `do_search`.
- Game.GameState.Init: requires at least six spells and five orders. The game panics on shorter lists, and that panic is not modelled.
- Game.InitialDeal: requires at least six spells and five orders, for the same reason.
- Game.Play: the move comes from `Game.EngineMove`. A panic ends the loop with the state the panic left, where the game would abort the process.
- Game.EngineMove: states only that the move names an order, offer or spell of the game. What `Search.GetMove` states of the search behind it is not carried into the game loop, where it makes the proofs too costly for the solver.
- Packing.Packer.ProcessSolution: requires the grid it is given to have the board's size, and the board at least one row. The packer reads the width from the first row and is only ever given the board.
- Packing.Packer.Go: states that the board and the flags are restored and that solutions are only added. It does not state that the store ends up holding every packing.
- Throws: a throw of `place` or `remove` is a `false` result of `Packing.Board.Place` or `Packing.Board.Remove`.
- Packer size: the packer builds the fixed 6 by 7 board of `index.ts`.
- Quirks of the programs are reproduced as written:
  - `make_cast` pays the price once whatever the multiplier.
  - `get_move` answers the best node's last move.
  - Brew and Learn in `apply_move` never remove the consumed order or offer, and Learn collects no reward.
  - `findNextPlaceFor` starts every row at one past the previous column, so positions to the left in later rows are skipped.
- Brewing prices: in the orders table they are positive amounts, which Brew adds to the inventory. The model adds them as written.
