# Puck'd rules engine in Dafny

A model of the rules engine of Puck'd, a turn-based elimination card game,
with proofs about it. The engine's parts:

- the **deck**: a draw pile, being a stack whose top is the next draw, and a discard pile;
- **cards**: runtime tokens that share an immutable configuration, with an
  owner and a one-way "played" flag;
- **players**: each has a hand and a one-way elimination flag;
- the **card action handler**: it checks a play, runs the card's effect, and
  settles a successful play;
- the **game manager**: it builds the card pool, deals, runs the draw phase
  of a turn (including the Puck'd/Save interaction), passes the turn past
  eliminated players, and detects the end of the game.

The model keeps the source's imperative form. `Deck`, `Card`, `Player`,
`GameManager` and `CardActionHandler` are classes. Their fields hold the
source's lists as `seq`s, and their methods update those fields and state
the new state in their postconditions. What a method computes is expressed
as functions:

- `Expanded`, `Undealt` and `Dealt` describe the pool and the deal.
- `DrawWithRetry`, `HandAfterDraw` and `PileAfterDraw` describe the draw phase.
- `CountActive`, `FirstActive` and `SkippedTo` describe the roster.

Lemmas about these functions carry the properties that span several calls.
These include card conservation through the draw phase, the closed form of
the deal, and the uniqueness of the next seat in turn order.

Modules, in dependency order:

- `Seqs`: generic sequence operations (`Reverse`, `RemoveFirst`, `InsertAt`, `Clamp`).
- `Cards`: `CardType`, `CardData`, `CardEntry`, and the classes `Card`, `Deck` and `Player`.
  They share a module because each refers to another.
- `Pool`: pool expansion and the opening deal.
- `DrawPhase`: the draw phase as functions of the prior state, with the conservation lemmas.
- `Roster`: counts of active players and the cyclic turn order.
- `Game`: `GameManager`.
- `Actions`: `CardActionHandler` and `Player.PlayCard`. PlayCard is a
  module-level `PlayCard` because the player module cannot import the handler.

Conventions:

- The draw pile is a sequence read top first: index 0 is the next card drawn.
- A `Stack` built from a list has that list's last element on top. So
  `Deck.Initialize` and `Deck.Shuffle` produce `Reverse(order)` of the
  random reordering they receive.
- Every random choice is a parameter:
  - `OrderBy(x => Random.value)` becomes an `order` whose multiset equals the input's;
  - `Random.Range(0, n)` becomes a `pick` with `InRandomRange(pick, n)`, which is 0 when n <= 0.

Where the code's comments and its behaviour differ, or the code is surprising, the model follows the code:

- Playing a Skip card ends the turn through `EndTurn`, draw phase included.
  The comment at CardType.cs:7 says the turn ends without drawing; EndTurn draws.
- Peek also fails when `peekAmount <= 0`, because `PeekTop` then returns
  nothing.
- The total number of cards is not constant:
  - the starting Save cards are created fresh, not taken from the deck;
  - a Save card spent against Puck'd goes to no pile;
  - an eliminated player's hand is cleared;
  - the Puck'd card that eliminates a player goes to no pile.
  The Save card is stated exactly by `DrawPhase.SavedDrawLosesOnlyTheSave`,
  the forfeited hand and the eliminating Puck'd card by
  `DrawPhase.EliminationForfeitsHand`; the fresh starting Save cards are
  stated only by `Game.GameManager.GiveStartingSaves`, for one seat.
- A card's played flag is set when it is discarded and never cleared
  (Card.cs:22-28,74), while `Deck.Shuffle` puts the same card objects back
  into the draw pile (Deck.cs:84-86). A card that comes back from the
  discard pile therefore never passes `CanPlay` again; the model keeps
  this, since no member of it resets the flag.
- The turn advance has no fallback for a game with no active player left.
  The model requires one active player wherever the source would otherwise
  recurse without end.

Three calls in the source do not resolve against the other files. The model reads them as follows:

- GameManager.cs:84,162 call `player.Hand.Add` on a read-only list. The model uses
  `Player.AddCardToHand`, which also sets the card's owner.
- GameManager.cs:90,150 call `deck.CountRemaining()`. The model reads
  `Deck.CardsRemaining`.
- Player.cs:136 uses `game.CardHandler`, which GameManager does not define. It
  becomes the `handler` parameter of `PlayCard`.

## Model

| member | source | states |
|---|---|---|
| Seqs.Reverse | Assets/Scripts/Cards/Deck.cs:37 | the stack built from a list, read top first: same length, element k is the list's element n-1-k |
| Seqs.ReverseMultiset | Assets/Scripts/Cards/Deck.cs:84-85 | building the stack neither adds nor loses a card |
| Seqs.IndexOf | Assets/Scripts/Core/Player.cs:112 | the position found holds the element, and no earlier position does |
| Seqs.RemoveAt | Assets/Scripts/Core/Player.cs:112 | removing position i: one shorter, the others keep their order, multiset minus that element |
| Seqs.RemoveFirst | Assets/Scripts/Core/Player.cs:112 | List.Remove: an absent element changes nothing; otherwise exactly the first occurrence leaves and the others keep their order |
| Seqs.InsertAt | Assets/Scripts/Cards/Deck.cs:106 | List.Insert: the element lands at position i, the old elements keep their order around it, multiset plus one |
| Seqs.InsertThenRemove | Assets/Scripts/Cards/Deck.cs:104-107 | removing the inserted card again gives back the old pile (the inverse of insertion) |
| Seqs.Clamp | Assets/Scripts/Cards/Deck.cs:105 | Mathf.Clamp: the result lies in [lo, hi], is v inside the range and the nearer bound outside it |
| Seqs.DistinctSplit | Assets/Scripts/Core/GameManager.cs:74-75 | the rest of a deck of distinct cards is distinct and shares no card with the dealt part |
| Cards.DataOf | Assets/Scripts/Cards/Card.cs:12 | the configurations of a card sequence, position by position |
| Cards.DataOfSlice | Assets/Scripts/Cards/Card.cs:12 | reading configurations commutes with slicing |
| Cards.DataOfConcat | Assets/Scripts/Cards/Card.cs:12 | reading configurations commutes with concatenation |
| Cards.HasType | Assets/Scripts/Core/Player.cs:186 | the `Any` query: true exactly when some card has the type |
| Cards.FirstOfType | Assets/Scripts/Core/Player.cs:151 | the `FirstOrDefault` search: the position holds the type, and no earlier card does |
| Cards.CountOfTypeConcat | Assets/Scripts/Core/Player.cs:151 | counts of a type add up over concatenation |
| Cards.CountOfTypeRemoveAt | Assets/Scripts/Core/Player.cs:158 | removing a card lowers the count of its type by one and no other count |
| Cards.CountOfTypePositive | Assets/Scripts/Core/Player.cs:151-156 | the `Any` query holds exactly when the count is positive |
| Cards.Card.constructor | Assets/Scripts/Cards/Card.cs:24-29 | a new card has the given configuration and owner and is unplayed |
| Cards.Card.CanPlay | Assets/Scripts/Cards/Card.cs:36-67 | false when already played, without an owner, with an eliminated owner, or when a required target is missing or eliminated; otherwise true; the target is ignored when none is required |
| Cards.Card.MarkAsPlayed | Assets/Scripts/Cards/Card.cs:72-75 | afterwards the card is marked played, and only that flag may change |
| Cards.Deck.constructor | Assets/Scripts/Cards/Deck.cs:10-11 | both piles start empty |
| Cards.Deck.CardsRemaining | Assets/Scripts/Cards/Deck.cs:16 | the size of the draw pile |
| Cards.Deck.CardsDiscarded | Assets/Scripts/Cards/Deck.cs:21 | the size of the discard pile |
| Cards.Deck.Initialize | Assets/Scripts/Cards/Deck.cs:27-41 | a missing or empty list keeps the old state; otherwise one fresh, unowned, unplayed, distinct card per entry, their configurations a permutation of the input in stack order, and an empty discard pile |
| Cards.Deck.Draw | Assets/Scripts/Cards/Deck.cs:47-56 | an empty pile gives null and stays empty; otherwise the top card is returned and the rest keeps its order |
| Cards.Deck.Discard | Assets/Scripts/Cards/Deck.cs:61-71 | null is a no-op; otherwise the card is appended to the discard pile and marked played, and the draw pile is not touched |
| Cards.Deck.Shuffle | Assets/Scripts/Cards/Deck.cs:76-89 | both piles empty: nothing changes; otherwise the new draw pile is the stack of the reordering of both piles and the discard pile is empty; the combined multiset and count are preserved |
| Cards.Deck.ReinsertPuckd | Assets/Scripts/Cards/Deck.cs:96-110 | null or a non-Puck'd card leaves the pile; a Puck'd card is inserted at depth Clamp(index, 0, size), the other cards keep their order |
| Cards.Deck.PeekTop | Assets/Scripts/Cards/Deck.cs:117-121 | the top min(n, size) cards top first, none for n <= 0; reads only the draw pile |
| Cards.Player.constructor | Assets/Scripts/Core/Player.cs:53-58 | the given name and index, not eliminated, empty hand |
| Cards.Player.HandSize | Assets/Scripts/Core/Player.cs:42 | the length of the hand |
| Cards.Player.HasCardOfType | Assets/Scripts/Core/Player.cs:184-187 | true exactly when some card in the hand has the type |
| Cards.Player.DrawCard | Assets/Scripts/Core/Player.cs:69-83 | an eliminated player draws nothing and the deck is untouched; an empty deck gives false with hand unchanged; otherwise true, the former top card is appended to the hand, becomes owned by the player, and leaves the deck |
| Cards.Player.AddCardToHand | Assets/Scripts/Core/Player.cs:88-99 | null is a no-op; otherwise the card is appended at the end and its owner becomes this player |
| Cards.Player.RemoveCardFromHand | Assets/Scripts/Core/Player.cs:104-114 | an absent card leaves the hand; otherwise exactly its first occurrence leaves, the rest keeps its order |
| Cards.Player.TryUseSaveCard | Assets/Scripts/Core/Player.cs:143-161 | succeeds exactly when the player is in and holds a Save card; then the first Save card in hand order leaves and the Save count drops by one; otherwise the hand is unchanged |
| Cards.Player.Eliminate | Assets/Scripts/Core/Player.cs:170-179 | afterwards the player is eliminated; the first call empties the hand, a second call changes nothing |
| Pool.Expanded | Assets/Scripts/Core/GameManager.cs:94-105 | the pool: the configurations of each entry, in entry order; its size and members are stated by ExpandedLength and ExpandedMembers |
| Pool.Copies | Assets/Scripts/Core/GameManager.cs:100-101 | `count` copies of one configuration, none for a non-positive count |
| Pool.EntryCards | Assets/Scripts/Core/GameManager.cs:99-101 | an entry contributes a configuration exactly when it has one and a positive count |
| Pool.ExpandedAppend | Assets/Scripts/Core/GameManager.cs:97-102 | expanding two entry lists one after the other is expanding their concatenation |
| Pool.ExpandedLength | Assets/Scripts/Core/GameManager.cs:94-105 | the pool holds exactly the sum of the positive counts of the entries that have a configuration |
| Pool.ExpandedMembers | Assets/Scripts/Core/GameManager.cs:99-101 | a configuration is in the pool exactly when some entry holds it with a positive count |
| Pool.FirstSave | Assets/Scripts/Core/GameManager.cs:80 | the `FirstOrDefault(type == Save)` search of the pool; FirstSaveFinds states what it finds |
| Pool.SaveBonus | Assets/Scripts/Core/GameManager.cs:78-85 | the Save cards one seat gets: `startingSaveCards` copies of the first Save configuration, none without one; SaveBonusShape and SaveBonusStep state it |
| Pool.FirstSaveFinds | Assets/Scripts/Core/GameManager.cs:80 | the pool's first Save configuration, nothing exactly when the pool has none |
| Pool.SaveBonusShape | Assets/Scripts/Core/GameManager.cs:78-85 | a pool with a Save configuration gives `count` cards (none for count <= 0), a pool without one gives none, and every bonus card is a Save configuration of the pool |
| Pool.SaveBonusStep | Assets/Scripts/Core/GameManager.cs:78-85 | one more iteration of the Save loop adds one more copy |
| Pool.Undealt | Assets/Scripts/Core/GameManager.cs:68-76 | the deck after n seats, in order, have each drawn up to h cards from the top; UndealtIsSuffix gives its closed form |
| Pool.Dealt | Assets/Scripts/Core/GameManager.cs:74-75 | the cards seat k draws: up to h from the top of what the earlier seats left; DealtIsSlice gives its closed form |
| Pool.UndealtIsSuffix | Assets/Scripts/Core/GameManager.cs:68-76 | after n seats the first n * h cards of the deck (or all of them) are gone |
| Pool.UndealtWithin | Assets/Scripts/Core/GameManager.cs:74-75 | the deal only takes cards away from the deck |
| Pool.DealtIsSlice | Assets/Scripts/Core/GameManager.cs:74-75 | seat k draws the deck's cards k * h up to (k + 1) * h |
| Pool.DealtFull | Assets/Scripts/Core/GameManager.cs:74-75 | a seat gets a full hand while the deck lasts |
| Pool.ShortHandEndsDeal | Assets/Scripts/Core/GameManager.cs:74-75 | once a seat gets a short hand, every later seat gets nothing and the deck is empty |
| Pool.DealPartition | Assets/Scripts/Core/GameManager.cs:68-76 | the seats' dealt cards in seat order, followed by the rest of the deck, are exactly the deck |
| Pool.DataOfUndealt | Assets/Scripts/Core/GameManager.cs:68-76 | dealing cards and reading their configurations is dealing the configurations |
| DrawPhase.InRandomRange | Assets/Scripts/Core/GameManager.cs:150 | `Random.Range(0, max)` on integers: a value in [0, max), and 0 when max <= 0 |
| DrawPhase.Saves | Assets/Scripts/Core/GameManager.cs:143-153 | the branch where the drawn card is Puck'd and the hand holds a Save card to block it |
| DrawPhase.Eliminates | Assets/Scripts/Core/GameManager.cs:143-158 | the branch where the drawn card is Puck'd and the hand holds no Save card, so the player is eliminated |
| DrawPhase.HandAfterDraw | Assets/Scripts/Core/GameManager.cs:143-165 | the hand after the draw: unchanged for no card, grown by a non-Puck'd card, minus its first Save for a blocked Puck'd, empty for an elimination; the conservation lemmas state what it keeps |
| DrawPhase.PileAfterDraw | Assets/Scripts/Core/GameManager.cs:148-151 | the draw pile after the draw: a blocked Puck'd card is inserted at the clamped depth `pick`, otherwise the pile after the draw; SavedPuckdReturnsToPile states it |
| DrawPhase.DrawWithRetry | Assets/Scripts/Core/GameManager.cs:127-133 | nothing is drawn exactly when both piles are empty; a non-empty draw pile gives its top card; an empty one is rebuilt from the discards and drawn from |
| DrawPhase.Adopted | Assets/Scripts/Core/GameManager.cs:162 | the drawn card joins a hand exactly when it is not Puck'd |
| DrawPhase.DrawnCardAccounted | Assets/Scripts/Core/GameManager.cs:127-133 | the drawn card plus both piles afterwards are both piles before |
| DrawPhase.OrdinaryDrawConservesCards | Assets/Scripts/Core/GameManager.cs:127-165 | drawing a card other than Puck'd, or nothing, neither creates nor loses a card across piles and hand |
| DrawPhase.SavedDrawLosesOnlyTheSave | Assets/Scripts/Core/GameManager.cs:143-153 | a blocked Puck'd loses exactly the first Save card of the hand; every other card stays in play |
| DrawPhase.EliminationForfeitsHand | Assets/Scripts/Core/GameManager.cs:154-158 | an unblocked Puck'd empties the hand; the piles keep every card but the Puck'd card |
| DrawPhase.SavedPuckdReturnsToPile | Assets/Scripts/Core/GameManager.cs:148-151 | the blocked Puck'd card sits at depth `pick`, the draw pile is as large as before the draw, and the hand has one Save card fewer |
| Roster.CountActive | Assets/Scripts/Core/GameManager.cs:178 | the number of players not eliminated, at most the roster size |
| Roster.FirstActive | Assets/Scripts/Core/GameManager.cs:182 | the first seat still in, all earlier ones eliminated; the roster size exactly when nobody is left |
| Roster.Active | Assets/Scripts/Core/GameManager.cs:178 | the `Where(!IsEliminated)` filter: exactly the players still in, headed by the first active seat |
| Roster.SoleSurvivor | Assets/Scripts/Core/GameManager.cs:178-182 | with one player left, that player is the first active one, so the announced winner is the survivor |
| Roster.AllActiveCount | Assets/Scripts/Core/GameManager.cs:88-91 | when nobody is eliminated, every seat counts as active |
| Roster.NextSeat | Assets/Scripts/Core/GameManager.cs:172 | the seat after seat i with wrap-around; NextSeatIsMod ties it to `(i + 1) % n` |
| Roster.SkippedTo | Assets/Scripts/Core/GameManager.cs:107-116 | seat `to` is the first seat still in, walking cyclically from seat `from`; SkippedToUnique, SkippedToActive and SkippedToStep state its properties |
| Roster.NextSeatIsMod | Assets/Scripts/Core/GameManager.cs:172 | `(i + 1) % n` is the next seat with wrap-around |
| Roster.CyclicDistStep | Assets/Scripts/Core/GameManager.cs:170-174 | one step forward brings each other seat one step closer, the measure the turn recursion decreases |
| Roster.SkippedToUnique | Assets/Scripts/Core/GameManager.cs:107-116 | the next player in cyclic order past eliminated seats is unique |
| Roster.SkippedToActive | Assets/Scripts/Core/GameManager.cs:109-116 | a seat whose player is still in keeps the turn |
| Roster.SkippedToStep | Assets/Scripts/Core/GameManager.cs:112-116 | from an eliminated seat the search continues at the next seat |
| Game.GameManager.constructor | Assets/Scripts/Core/GameManager.cs:9-26 | the settings as given, an empty fresh deck, no players, turn 0, game not over, invariant established |
| Game.GameManager.StartTurn | Assets/Scripts/Core/GameManager.cs:107-120 | once the game is over nothing moves; otherwise the turn lands on the first seat still in, walking cyclically from the current one |
| Game.GameManager.AdvanceTurn | Assets/Scripts/Core/GameManager.cs:170-174 | the turn moves to the next seat and on past eliminated players to the next player still in |
| Game.GameManager.CheckGameOver | Assets/Scripts/Core/GameManager.cs:176-185 | the game is over exactly when it was or at most one player is left; the winner is the sole survivor, or nobody |
| Game.GameManager.DealtPool | Assets/Scripts/Core/GameManager.cs:61-62 | the pool the deck is built from: the caller's random reordering when shuffleBeforeEachGame is set, otherwise the expanded entries in order; StartGame's contract is stated through it |
| Game.GameManager.ExpandCardPool | Assets/Scripts/Core/GameManager.cs:94-105 | the loop builds exactly the expanded pool (entries in order, each repeated `count` times, entries without data skipped) |
| Game.GameManager.HandQuota | Assets/Scripts/Core/GameManager.cs:74 | how many times the opening-hand loop draws: startingHandSize, or none when it is not positive |
| Game.GameManager.DealStartingHand | Assets/Scripts/Core/GameManager.cs:74-75 | the player draws the top min(hand size, deck) cards into the hand in order and owns them |
| Game.GameManager.GiveStartingSaves | Assets/Scripts/Core/GameManager.cs:78-85 | the hand grows by fresh, unplayed cards owned by the player whose configurations are the Save bonus |
| Game.GameManager.SeatPlayer | Assets/Scripts/Core/GameManager.cs:68-86 | a fresh player with the next index takes the next seat with the next dealt hand; the seats dealt before keep theirs |
| Game.GameManager.DealNewSeat | Assets/Scripts/Core/GameManager.cs:73-85 | the new seat's cards are its share of the deal followed by the Save bonus; the earlier seats keep theirs and the deck keeps the rest |
| Game.GameManager.DealOpeningHand | Assets/Scripts/Core/GameManager.cs:73-85 | the opening hand is the next cards from the deck, then the Save bonus, all owned by the player and unplayed |
| Game.GameManager.SeatAll | Assets/Scripts/Core/GameManager.cs:65-86 | one fresh player per name in name order, index equal to seat, seat k holding the k-th share of the deck plus the Save bonus; the rest of the deck stays unowned |
| Game.GameManager.StartGame | Assets/Scripts/Core/GameManager.cs:45-92 | fewer than two names or an empty pool changes nothing; otherwise the table is dealt from the (reordered) pool and seat 0 has the first turn of a running game |
| Game.GameManager.DealNewGame | Assets/Scripts/Core/GameManager.cs:64-91 | the deal of a fresh table and the first turn, with the manager's invariant |
| Game.GameManager.BeginPlay | Assets/Scripts/Core/GameManager.cs:88-91 | with nobody eliminated, the game runs and seat 0 keeps the first turn |
| Game.GameManager.DealTable | Assets/Scripts/Core/GameManager.cs:64-86 | the deck is rebuilt from the pool and dealt: seat k holds the configurations of its share and the bonus; the rest is the draw pile; the discard pile is empty |
| Game.GameManager.DealtHands | Assets/Scripts/Core/GameManager.cs:68-86 | the hands dealt from the card deck, read as configurations, are the deal of the configuration deck |
| Game.GameManager.DrawForTurn | Assets/Scripts/Core/GameManager.cs:127-133 | the turn's draw agrees with DrawWithRetry: the card drawn (or null) and both piles afterwards |
| Game.GameManager.ResolveDraw | Assets/Scripts/Core/GameManager.cs:143-165 | a Puck'd card is blocked by the first Save card and reinserted at the clamped depth, or eliminates the player and may end the game; any other card joins the hand and is owned by the player |
| Game.GameManager.EndTurn | Assets/Scripts/Core/GameManager.cs:122-168 | once the game is over, or before the first game (empty roster, where the source's lookup fails), nothing changes; otherwise the draw phase as DrawWithRetry, HandAfterDraw and PileAfterDraw give it, elimination and game over as the Puck'd rule gives them, the turn passed to the next player still in, and the manager's invariant kept |
| Game.GameManager.PlayOutTurn | Assets/Scripts/Core/GameManager.cs:125-167 | the draw phase and turn advance of a running game, with the draw, pile, hand and turn outcome stated against the prior state |
| Actions.EffectSucceeds | Assets/Scripts/Cards/CardActionHandler.cs:58-153 | the boolean each handler returns: Puck'd fails, Save, Cancel and Shuffle succeed, Attack needs a live target, Skip a seated table, Peek at least one card to show; ProcessCardEffect's `ok` is this value |
| Actions.TargetedPlayNeverMissesTarget | Assets/Scripts/Cards/CardActionHandler.cs:111-123 | an Attack card that passes its own targeted check always succeeds against that target |
| Actions.CardActionHandler.constructor | Assets/Scripts/Cards/CardActionHandler.cs:18-21 | the handler acts on the given game |
| Actions.CardActionHandler.HandlePuckd | Assets/Scripts/Cards/CardActionHandler.cs:90-95 | playing Puck'd always fails |
| Actions.CardActionHandler.HandleSave | Assets/Scripts/Cards/CardActionHandler.cs:97-102 | playing Save always succeeds and changes nothing |
| Actions.CardActionHandler.HandleCancel | Assets/Scripts/Cards/CardActionHandler.cs:104-109 | playing Cancel always succeeds and changes nothing |
| Actions.CardActionHandler.HandleAttack | Assets/Scripts/Cards/CardActionHandler.cs:111-123 | succeeds exactly when the target exists and is still in; changes nothing |
| Actions.CardActionHandler.HandleSkip | Assets/Scripts/Cards/CardActionHandler.cs:125-130 | at an empty table the roster lookup fails and nothing changes; otherwise the turn ends exactly as EndTurn ends it, the playing player's hand changing only if the turn was theirs |
| Actions.CardActionHandler.HandlePeek | Assets/Scripts/Cards/CardActionHandler.cs:132-146 | reveals the top min(peekAmount, size) cards top first without touching the deck; fails exactly when that is nothing |
| Actions.CardActionHandler.HandleShuffle | Assets/Scripts/Cards/CardActionHandler.cs:148-153 | succeeds; the draw pile is rebuilt from both piles (the same cards) and the discard pile is empty |
| Actions.CardActionHandler.ProcessCardEffect | Assets/Scripts/Cards/CardActionHandler.cs:58-88 | the effect succeeds exactly as the card type's condition says; a failure changes nothing; a success has the card type's effect and only Skip moves the turn; a Skip ends the turn as EndTurn does, the draw landing in the hand of the seat whose turn ended even when another player played the card |
| Actions.CardActionHandler.SettlePlay | Assets/Scripts/Cards/CardActionHandler.cs:49-51 | the card's first occurrence leaves the hand, the card is marked played and appended to the discard pile |
| Actions.CardActionHandler.SettleKeepingEffect | Assets/Scripts/Cards/CardActionHandler.cs:46-52 | the settlement of SettlePlay, after which the card's effect (EffectHolds, stated on the hand and discard pile before settling) still holds: settling leaves the turn, the draw pile, the eliminations and card owners alone |
| Actions.CardActionHandler.HandleCardPlay | Assets/Scripts/Cards/CardActionHandler.cs:29-56 | a play refused by CanPlay or absent from the hand, or whose effect fails, changes nothing (a refused Skip leaves the current seat and the card owners alone, since only a play passing both checks may touch them); a successful one has its effect, the turn-ending seat's hand included for a Skip, then is removed from the hand, marked played and discarded |
| Actions.CardActionHandler.PlayAccepted | Assets/Scripts/Cards/CardActionHandler.cs:43-55 | after both checks passed: the effect, with the seat whose turn a Skip ends, then the bookkeeping exactly when it succeeded |
| Actions.PlayCard | Assets/Scripts/Core/Player.cs:122-137 | a card not in the hand, or a player already out, plays nothing and touches neither the current seat nor any card's owner; otherwise the play goes to the handler with the outcome HandleCardPlay states |

## Left out

- Logging (`Debug.Log` and its variants), the singleton `Awake`, `UpdateUI`
  (its body is commented out), `PlayerUI`, and the UI and editor scripts.
  None of them affects the rules.
- The `OnPeekCards` event: its subscribers are outside the engine, so
  `HandlePeek` returns the revealed cards as `shown` instead.
- Randomness: the float-keyed `OrderBy(x => Random.value)` shuffles and
  `Random.Range` become caller-supplied reorderings and indices. Only their
  permutation or range property is constrained.
- The try/catch of `ProcessCardEffect`. The only exception a modelled
  handler can raise is the roster lookup of a Skip at a table with no
  players, and `HandleSkip` returns failure there, because it tests for an
  empty roster before ending the turn. Other exceptions would come from
  null references, which the types rule out.
- Integer width: counts, indices and hand sizes are unbounded integers. The
  source's 32-bit `int` never overflows at the sizes a game reaches; this
  is not proved.
- Inspector ranges (`[Min(1)]` on the hand size, `[Range(0, 2)]` on the Save
  cards) are not assumed. Any integer setting is modelled, including a
  non-positive one, which deals nothing.
- `CanPlay` is `virtual`. Overrides in subclasses are not modelled. There are
  none in the repository.
- The accessors of GameManager.cs:29-31 have no members of their own.
  `Players` and `Deck` are plain field reads. `CurrentPlayer` is the guarded
  lookup, null for an empty roster and otherwise the current seat's player;
  the model reads `players[currentPlayerIndex]` only where `players != []`,
  and `CurrentSeat` is that lookup as a set.
- CardData.cs's `OnValidate` editor hook. The asset's description, artwork
  and `canBeCountered` fields also play no part in the rules.
- Game.GameManager.StartGame: does not state that the starting Save cards
  are fresh objects, only what they are. GiveStartingSaves states their
  freshness for one seat, but the whole-table contract keeps only card
  configurations and owners.
- Game.GameManager.StartTurn: termination of the mutual recursion with
  AdvanceTurn is proved only while at least one player is in
  (`Turnable`). With nobody left the source would recurse without end,
  and the model requires that this cannot happen.
- Game.GameManager.EndTurn: before the first game, at an empty roster,
  the source throws at the current-player lookup (GameManager.cs:125)
  before changing anything. The model returns there with the state
  unchanged; that the call fails, and that the failure reaches the caller,
  is not modelled.
- Actions.CardActionHandler.HandleSkip: requires the manager's invariant.
  Without it, the source's EndTurn could index outside the roster or
  divide by zero; the invariant holds from construction and is kept by
  every operation.
