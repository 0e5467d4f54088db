/** The turn state machine: the seats, whose turn it is, whether the game is
    over, and the deck the game is played with. */
module Game {
  import opened Seqs
  import opened Cards
  import opened Pool
  import opened DrawPhase
  import opened Roster

  class GameManager {
    /** The game settings, fixed for the manager's lifetime. */
    const startingHandSize: int
    const startingSaveCards: int
    const shuffleBeforeEachGame: bool
    const cardEntries: seq<CardEntry>

    const deck: Deck
    var players: seq<Player>
    var currentPlayerIndex: int
    var isGameOver: bool

    constructor (startingHandSize: int, startingSaveCards: int, shuffleBeforeEachGame: bool, cardEntries: seq<CardEntry>)
      ensures this.startingHandSize == startingHandSize && this.startingSaveCards == startingSaveCards
      ensures this.shuffleBeforeEachGame == shuffleBeforeEachGame && this.cardEntries == cardEntries
      ensures fresh(deck) && deck.drawPile == [] && deck.discardPile == []
      ensures players == [] && currentPlayerIndex == 0 && !isGameOver
      ensures Valid()
    {
      this.startingHandSize := startingHandSize;
      this.startingSaveCards := startingSaveCards;
      this.shuffleBeforeEachGame := shuffleBeforeEachGame;
      this.cardEntries := cardEntries;
      deck := new Deck();
      players := [];
      currentPlayerIndex := 0;
      isGameOver := false;
    }

    /** A started game: at least two seats, seat k holds the player with
        index k, and while the game runs at least two players are left and
        the turn is with one of them. */
    ghost predicate Seated()
      reads this, (set p | p in players)`isEliminated
    {
      && |players| >= 2
      && 0 <= currentPlayerIndex < |players|
      && (forall k :: 0 <= k < |players| ==> players[k].playerIndex == k)
      && (!isGameOver ==> CountActive(players) >= 2 && !players[currentPlayerIndex].isEliminated)
    }

    /** The manager's invariant: not started yet, or seated. */
    ghost predicate Valid()
      reads this, (set p | p in players)`isEliminated
    {
      if players == [] then !isGameOver && currentPlayerIndex == 0 else Seated()
    }

    /** The seat whose turn it is, when there is one. */
    function CurrentSeat(): set<Player>
      reads this
    {
      if 0 <= currentPlayerIndex < |players| then {players[currentPlayerIndex]} else {}
    }

    /** The card EndTurn would put into the current player's hand. */
    function TurnAdopted(order: seq<Card>): set<Card>
      requires deck.drawPile == [] ==> multiset(order) == multiset(deck.discardPile)
      reads this, deck
    {
      if isGameOver || players == [] then {}
      else Adopted(DrawWithRetry(deck.drawPile, deck.discardPile, order))
    }

    /** What StartTurn and AdvanceTurn need: a seat index in range and,
        while the game runs, someone left to take the turn. */
    ghost predicate Turnable()
      reads this, (set p | p in players)`isEliminated
    {
      0 <= currentPlayerIndex < |players| && (!isGameOver ==> CountActive(players) >= 1)
    }

    /** Keeps the turn with the current player, or passes it on past eliminated players. */
    method StartTurn()
      requires Turnable()
      modifies this`currentPlayerIndex
      ensures isGameOver ==> currentPlayerIndex == old(currentPlayerIndex)
      ensures !isGameOver ==> SkippedTo(players, old(currentPlayerIndex), currentPlayerIndex)
      decreases CyclicDist(currentPlayerIndex, FirstActive(players), |players|), 0
    {
      if isGameOver {
        return;
      }
      var player := players[currentPlayerIndex];
      if player.isEliminated {
        CyclicDistStep(currentPlayerIndex, FirstActive(players), |players|);
        AdvanceTurn();
        SkippedToStep(players, old(currentPlayerIndex), currentPlayerIndex);
        return;
      }
    }

    /** Moves to the next seat, then starts that turn. */
    method AdvanceTurn()
      requires Turnable()
      modifies this`currentPlayerIndex
      ensures 0 <= currentPlayerIndex < |players|
      ensures !isGameOver ==> !players[currentPlayerIndex].isEliminated
      ensures isGameOver ==> currentPlayerIndex == NextSeat(old(currentPlayerIndex), |players|)
      ensures !isGameOver ==> SkippedTo(players, NextSeat(old(currentPlayerIndex), |players|), currentPlayerIndex)
      decreases CyclicDist(NextSeat(currentPlayerIndex, |players|), FirstActive(players), |players|), 1
    {
      NextSeatIsMod(currentPlayerIndex, |players|);
      currentPlayerIndex := (currentPlayerIndex + 1) % |players|;
      StartTurn();
    }

    /** Ends the game once at most one player is left; the winner announced
        is the first player still in, or nobody. */
    method CheckGameOver() returns (winner: Player?)
      modifies this`isGameOver
      ensures isGameOver == (old(isGameOver) || CountActive(players) <= 1)
      ensures CountActive(players) > 1 ==> winner == null
      ensures CountActive(players) == 1 ==> winner == players[FirstActive(players)]
      ensures CountActive(players) == 0 ==> winner == null
    {
      var active := Active(players);
      winner := null;
      if |active| <= 1 {
        isGameOver := true;
        if |active| > 0 {
          winner := active[0];
        }
      }
    }

    /** The pool: each configured entry's data repeated `count` times, in entry order. */
    method ExpandCardPool(entries: seq<CardEntry>) returns (list: seq<CardData>)
      ensures list == Expanded(entries)
    {
      list := [];
      for e := 0 to |entries|
        invariant list == Expanded(entries[..e])
      {
        var entry := entries[e];
        assert entries[..e + 1][..e] == entries[..e];
        if entry.cardData.Some? {
          var d := entry.cardData.value;
          var i := 0;
          while i < entry.count
            invariant 0 <= i && (i <= entry.count || i == 0)
            invariant list == Expanded(entries[..e]) + Copies(d, i)
          {
            list := list + [d];
            i := i + 1;
            assert Copies(d, i) == Copies(d, i - 1) + [d];
          }
        }
      }
      assert entries[..|entries|] == entries;
    }

    /** The number of cards of an opening hand: the dealing loop runs
        `startingHandSize` times, so a non-positive size deals nothing. */
    function HandQuota(): nat
    {
      if startingHandSize <= 0 then 0 else startingHandSize
    }

    /** The opening hand: the player draws HandQuota() times; a draw from an
        empty deck draws nothing. */
    method DealStartingHand(player: Player)
      requires !player.isEliminated
      modifies player`hand, deck`drawPile, (set c | c in deck.drawPile[..Min(HandQuota(), |deck.drawPile|)])`owner
      ensures var m := Min(HandQuota(), |old(deck.drawPile)|);
        && player.hand == old(player.hand) + old(deck.drawPile)[..m]
        && deck.drawPile == old(deck.drawPile)[m..]
        && (forall c :: c in old(deck.drawPile)[..m] ==> c.owner == player)
    {
      ghost var pile := deck.drawPile;
      var j := 0;
      while j < startingHandSize
        invariant 0 <= j <= HandQuota()
        invariant player.hand == old(player.hand) + pile[..Min(j, |pile|)]
        invariant deck.drawPile == pile[Min(j, |pile|)..]
        invariant forall c :: c in pile[..Min(j, |pile|)] ==> c.owner == player
      {
        ghost var before := deck.drawPile;
        var _ := player.DrawCard(deck);
        if before != [] {
          assert pile[..Min(j + 1, |pile|)] == pile[..Min(j, |pile|)] + [before[0]];
        }
        j := j + 1;
      }
    }

    /** The opening Save cards: startingSaveCards times a fresh card of the
        pool's first Save configuration joins the hand, if the pool has one. */
    method GiveStartingSaves(player: Player, pool: seq<CardData>)
      modifies player`hand
      ensures |old(player.hand)| <= |player.hand|
      ensures player.hand[..|old(player.hand)|] == old(player.hand)
      ensures DataOf(player.hand[|old(player.hand)|..]) == SaveBonus(pool, startingSaveCards)
      ensures forall k :: |old(player.hand)| <= k < |player.hand| ==>
                fresh(player.hand[k]) && player.hand[k].owner == player && !player.hand[k].hasBeenPlayed
    {
      ghost var added: seq<Card> := [];
      var s := 0;
      while s < startingSaveCards
        invariant 0 <= s && (s <= startingSaveCards || s == 0)
        invariant player.hand == old(player.hand) + added
        invariant DataOf(added) == SaveBonus(pool, s)
        invariant forall c :: c in added ==> fresh(c) && c.owner == player && !c.hasBeenPlayed
      {
        var saveCardData := FirstSave(pool);
        if saveCardData.Some? {
          var saveCard := new Card(saveCardData.value, player);
          player.AddCardToHand(saveCard);
          DataOfConcat(added, [saveCard]);
          SaveBonusStep(pool, s);
          added := added + [saveCard];
        }
        s := s + 1;
      }
      assert player.hand[|old(player.hand)|..] == added;
      assert forall k :: |old(player.hand)| <= k < |player.hand| ==> player.hand[k] in added;
    }

    /** One seat of the table: a new player with the next index takes the
        next seat, draws its opening hand from the top of the deck and
        receives its starting Save cards; the seats dealt before keep their
        hands. `pile` is the deck as it was before the first seat drew. */
    method SeatPlayer(name: string, pool: seq<CardData>, ghost pile: seq<Card>) returns (player: Player)
      requires deck.drawPile == Undealt(pile, HandQuota(), |players|)
      requires forall c :: c in deck.drawPile ==> c in pile
      requires forall k :: 0 <= k < |players| ==> HoldsOpeningHand(players[k], Dealt(pile, HandQuota(), k), pool)
      requires Distinct(deck.drawPile)
      requires forall c :: c in deck.drawPile ==> c.owner == null && !c.hasBeenPlayed
      modifies this`players, deck`drawPile, (set c | c in pile)`owner
      ensures fresh(player) && players == old(players) + [player]
      ensures player.name == name && player.playerIndex == |old(players)| && !player.isEliminated
      ensures deck.drawPile == Undealt(pile, HandQuota(), |players|)
      ensures forall k :: 0 <= k < |players| ==> HoldsOpeningHand(players[k], Dealt(pile, HandQuota(), k), pool)
      ensures Distinct(deck.drawPile)
      ensures forall c :: c in deck.drawPile ==> c.owner == null && !c.hasBeenPlayed
    {
      player := new Player(name, |players|);
      DealNewSeat(player, pool, pile);
      players := players + [player];
    }

    /** The deal of SeatPlayer for a player not yet seated: it draws the
        next hand of the deal, and the seats dealt before keep theirs. */
    method DealNewSeat(player: Player, pool: seq<CardData>, ghost pile: seq<Card>)
      requires !player.isEliminated && player.hand == []
      requires forall k :: 0 <= k < |players| ==> players[k] != player
      requires deck.drawPile == Undealt(pile, HandQuota(), |players|)
      requires forall c :: c in deck.drawPile ==> c in pile
      requires forall k :: 0 <= k < |players| ==> HoldsOpeningHand(players[k], Dealt(pile, HandQuota(), k), pool)
      requires Distinct(deck.drawPile)
      requires forall c :: c in deck.drawPile ==> c.owner == null && !c.hasBeenPlayed
      modifies player`hand, deck`drawPile, (set c | c in pile)`owner
      ensures deck.drawPile == Undealt(pile, HandQuota(), |players| + 1)
      ensures forall k :: 0 <= k < |players| + 1 ==>
                HoldsOpeningHand((players + [player])[k], Dealt(pile, HandQuota(), k), pool)
      ensures Distinct(deck.drawPile)
      ensures forall c :: c in deck.drawPile ==> c.owner == null && !c.hasBeenPlayed
    {
      ghost var before := deck.drawPile;
      ghost var m := Min(HandQuota(), |deck.drawPile|);
      DistinctSplit(before, m);
      DealOpeningHand(player, pool);
      forall k | 0 <= k < |players| + 1
        ensures HoldsOpeningHand((players + [player])[k], Dealt(pile, HandQuota(), k), pool)
      {
        if k < |players| {
          forall c | c in players[k].hand ensures c.owner == old(c.owner) && c.hasBeenPlayed == old(c.hasBeenPlayed) {
            assert old(c.owner) == players[k];
          }
        }
      }
    }

    /** A new player's opening hand: HandQuota() draws, then the starting
        Save cards. */
    method DealOpeningHand(player: Player, pool: seq<CardData>)
      requires !player.isEliminated && player.hand == []
      requires forall c :: c in deck.drawPile ==> !c.hasBeenPlayed
      modifies player`hand, deck`drawPile, (set c | c in deck.drawPile[..Min(HandQuota(), |deck.drawPile|)])`owner
      ensures var m := Min(HandQuota(), |old(deck.drawPile)|);
        && deck.drawPile == old(deck.drawPile)[m..]
        && HoldsOpeningHand(player, old(deck.drawPile)[..m], pool)
    {
      ghost var before := deck.drawPile;
      ghost var m := Min(HandQuota(), |deck.drawPile|);
      DealStartingHand(player);
      GiveStartingSaves(player, pool);
      forall j | 0 <= j < m ensures player.hand[j].owner == player && !player.hand[j].hasBeenPlayed {
        assert player.hand[j] == before[j];
      }
    }

    /** The pool the deck is built from: the expanded entries, shuffled by
        the caller-supplied `poolOrder` when shuffleBeforeEachGame is set. */
    function DealtPool(poolOrder: seq<CardData>): seq<CardData>
    {
      if shuffleBeforeEachGame then poolOrder else Expanded(cardEntries)
    }

    /** The cards a seat holds after the deal: the cards `d` it drew, then
        its starting Save cards; the player owns each of them and none has
        been played. */
    ghost predicate HoldsOpeningHand(p: Player, d: seq<Card>, pool: seq<CardData>)
      reads p`hand, (set c | c in p.hand)`owner, (set c | c in p.hand)`hasBeenPlayed
    {
      && |d| <= |p.hand| && p.hand[..|d|] == d
      && DataOf(p.hand[|d|..]) == SaveBonus(pool, startingSaveCards)
      && forall c :: c in p.hand ==> c.owner == p && !c.hasBeenPlayed
    }

    /** The seating loop: one new player per name, each drawing its opening
        hand from the top of the deck in seat order. */
    method SeatAll(names: seq<string>, pool: seq<CardData>)
      requires players == []
      requires Distinct(deck.drawPile)
      requires forall c :: c in deck.drawPile ==> c.owner == null && !c.hasBeenPlayed
      modifies this`players, deck`drawPile, (set c | c in deck.drawPile)`owner
      ensures |players| == |names|
      ensures forall k :: 0 <= k < |players| ==>
                && fresh(players[k]) && players[k].name == names[k]
                && players[k].playerIndex == k && !players[k].isEliminated
      ensures forall k :: 0 <= k < |players| ==>
                HoldsOpeningHand(players[k], Dealt(old(deck.drawPile), HandQuota(), k), pool)
      ensures deck.drawPile == Undealt(old(deck.drawPile), HandQuota(), |names|)
      ensures forall c :: c in deck.drawPile ==> c.owner == null && !c.hasBeenPlayed
    {
      ghost var pile := deck.drawPile;
      ghost var h := HandQuota();
      for i := 0 to |names|
        invariant |players| == i
        invariant forall k :: 0 <= k < i ==>
                    && fresh(players[k]) && players[k].name == names[k]
                    && players[k].playerIndex == k && !players[k].isEliminated
        invariant forall k :: 0 <= k < i ==> HoldsOpeningHand(players[k], Dealt(pile, h, k), pool)
        invariant deck.drawPile == Undealt(pile, h, i)
        invariant Distinct(deck.drawPile)
        invariant forall c :: c in deck.drawPile ==> c.owner == null && !c.hasBeenPlayed
      {
        UndealtWithin(pile, h, i);
        var player := SeatPlayer(names[i], pool, pile);
      }
    }

    /** Seats the named players in order and deals: seat k draws its opening
        hand of up to HandQuota() cards from the top of the new deck (seat 0
        first), then gets its starting Save cards. Fewer than two names or an
        empty pool leave everything as it was. `poolOrder` and `deckOrder`
        are the two random reorderings (of the pool, and inside
        Deck.Initialize). */
    method StartGame(playerNames: Option<seq<string>>, poolOrder: seq<CardData>, deckOrder: seq<CardData>)
      requires Valid()
      requires shuffleBeforeEachGame ==> multiset(poolOrder) == multiset(Expanded(cardEntries))
      requires multiset(deckOrder) == multiset(Expanded(cardEntries))
      modifies this, deck
      ensures Valid()
      ensures playerNames.None? || |playerNames.value| < 2 || Expanded(cardEntries) == [] ==>
                unchanged(this) && unchanged(deck)
      ensures playerNames.Some? && |playerNames.value| >= 2 && Expanded(cardEntries) != [] ==>
                NewGame(playerNames.value, DealtPool(poolOrder), deckOrder)
    {
      if playerNames.None? || |playerNames.value| < 2 {
        return;
      }
      var expandedPool := ExpandCardPool(cardEntries);
      if |expandedPool| == 0 {
        return;
      }
      if shuffleBeforeEachGame {
        expandedPool := poolOrder;
      }
      DealNewGame(playerNames.value, expandedPool, deckOrder);
    }

    /** The table right after a deal: the seats hold the named players in
        order, seat k holding the configurations Dealt(Reverse(deckOrder), ...)
        of its share of the deck followed by its starting Save cards, every
        card owned by its holder and unplayed; the rest of the deck, unowned
        and unplayed, is the draw pile, and the discard pile is empty. */
    ghost predicate TableDealt(ps: seq<Player>, d: Deck, names: seq<string>, pool: seq<CardData>, deckOrder: seq<CardData>)
      reads ps, d, (set k, c | 0 <= k < |ps| && c in ps[k].hand :: c), set c | c in d.drawPile
    {
      var top := Reverse(deckOrder);
      var bonus := SaveBonus(pool, startingSaveCards);
      && |ps| == |names|
      && (forall k :: 0 <= k < |ps| ==>
            && ps[k].name == names[k] && ps[k].playerIndex == k && !ps[k].isEliminated
            && DataOf(ps[k].hand) == Dealt(top, HandQuota(), k) + bonus)
      && (forall k, c :: 0 <= k < |ps| && c in ps[k].hand ==>
            c.owner == ps[k] && !c.hasBeenPlayed)
      && DataOf(d.drawPile) == Undealt(top, HandQuota(), |ps|)
      && (forall c :: c in d.drawPile ==> c.owner == null && !c.hasBeenPlayed)
      && d.discardPile == []
    }

    /** A game just started: the table is dealt and seat 0 has the first turn. */
    ghost predicate NewGame(names: seq<string>, pool: seq<CardData>, deckOrder: seq<CardData>)
      reads this, players, deck, (set k, c | 0 <= k < |players| && c in players[k].hand :: c), set c | c in deck.drawPile
    {
      TableDealt(players, deck, names, pool, deckOrder) && !isGameOver && currentPlayerIndex == 0
    }

    /** The deal, then the first turn. */
    method DealNewGame(names: seq<string>, pool: seq<CardData>, deckOrder: seq<CardData>)
      requires |names| >= 2 && pool != []
      requires multiset(deckOrder) == multiset(pool)
      modifies this, deck
      ensures Valid()
      ensures NewGame(names, pool, deckOrder)
      ensures forall k :: 0 <= k < |players| ==> fresh(players[k])
      ensures forall c :: c in deck.drawPile ==> fresh(c)
    {
      DealTable(names, pool, deckOrder);
      BeginPlay();
    }

    /** The start of play: the game runs and seat 0, whose player is
        still in, takes the first turn. */
    method BeginPlay()
      requires |players| >= 2 && forall k :: 0 <= k < |players| ==> !players[k].isEliminated
      requires forall k :: 0 <= k < |players| ==> players[k].playerIndex == k
      modifies this`isGameOver, this`currentPlayerIndex
      ensures Seated() && !isGameOver && currentPlayerIndex == 0
    {
      isGameOver := false;
      currentPlayerIndex := 0;
      AllActiveCount(players);
      StartTurn();
      SkippedToActive(players, 0, currentPlayerIndex);
    }

    /** A new deck from `pool`, then the seating loop. */
    method DealTable(names: seq<string>, pool: seq<CardData>, deckOrder: seq<CardData>)
      requires pool != []
      requires multiset(deckOrder) == multiset(pool)
      modifies this`players, deck
      ensures TableDealt(players, deck, names, pool, deckOrder)
      ensures forall k :: 0 <= k < |players| ==> fresh(players[k])
      ensures forall c :: c in deck.drawPile ==> fresh(c)
    {
      deck.Initialize(Some(pool), deckOrder);
      players := [];
      ghost var pile := deck.drawPile;
      SeatAll(names, pool);
      DealtHands(pile, pool, deckOrder);
      DataOfUndealt(pile, HandQuota(), |players|);
      UndealtWithin(pile, HandQuota(), |players|);
    }

    /** The hands SeatAll deals, read as configurations. */
    lemma DealtHands(pile: seq<Card>, pool: seq<CardData>, deckOrder: seq<CardData>)
      requires DataOf(pile) == Reverse(deckOrder)
      requires forall k :: 0 <= k < |players| ==> HoldsOpeningHand(players[k], Dealt(pile, HandQuota(), k), pool)
      ensures forall k :: 0 <= k < |players| ==>
                DataOf(players[k].hand) == Dealt(Reverse(deckOrder), HandQuota(), k) + SaveBonus(pool, startingSaveCards)
    {
      forall k | 0 <= k < |players|
        ensures DataOf(players[k].hand) == Dealt(Reverse(deckOrder), HandQuota(), k) + SaveBonus(pool, startingSaveCards)
      {
        assert HoldsOpeningHand(players[k], Dealt(pile, HandQuota(), k), pool);
        var hand := players[k].hand;
        var d := Dealt(pile, HandQuota(), k);
        assert hand == d + hand[|d|..];
        DataOfConcat(d, hand[|d|..]);
        DataOfUndealt(pile, HandQuota(), k);
      }
    }

    /** What EndTurn leaves behind, apart from the discard pile and the hand
        of the player whose turn ended: D and H are the draw pile and that
        hand before the turn ended, r the outcome of the turn's draw. */
    ghost predicate TurnEnded(wasOver: bool, from: int, wasEliminated: bool,
                              D: seq<Card>, H: seq<Card>, r: DrawResult, pick: int)
      reads this, deck`drawPile, (set p | p in players)`isEliminated, Adopted(r)`owner
    {
      && 0 <= from < |players|
      && if wasOver then
           && isGameOver
           && currentPlayerIndex == from
           && deck.drawPile == D
           && players[from].isEliminated == wasEliminated
         else
           && deck.drawPile == PileAfterDraw(r, H, pick)
           && players[from].isEliminated == Eliminates(H, r.drawn)
           && (forall c :: c in Adopted(r) ==> c.owner == players[from])
           && isGameOver == (Eliminates(H, r.drawn) && CountActive(players) <= 1)
           && (isGameOver ==> currentPlayerIndex == NextSeat(from, |players|))
           && (!isGameOver ==> SkippedTo(players, NextSeat(from, |players|), currentPlayerIndex))
    }

    /** The turn's draw: on an empty draw pile both piles are reshuffled
        (in the random `order`) and one more draw is tried. */
    method DrawForTurn(order: seq<Card>) returns (drawnCard: Card?)
      requires deck.drawPile == [] ==> multiset(order) == multiset(deck.discardPile)
      modifies deck
      ensures var r := old(DrawWithRetry(deck.drawPile, deck.discardPile, order));
        && (drawnCard == null <==> r.drawn.None?)
        && (drawnCard != null ==> r.drawn.value == drawnCard)
        && deck.drawPile == r.pile && deck.discardPile == r.discard
    {
      drawnCard := deck.Draw();
      if drawnCard == null {
        assert deck.drawPile + deck.discardPile == deck.discardPile;
        deck.Shuffle(order);
        drawnCard := deck.Draw();
      }
    }

    /** What the drawn card does to the player whose turn ends: a Puck'd card
        is blocked by a Save card and goes back into the draw pile at depth
        `pick`, or eliminates the player (and may end the game); any other
        card joins the hand. */
    method ResolveDraw(player: Player, drawnCard: Card, pick: int)
      requires !isGameOver && !player.isEliminated
      requires InRandomRange(pick, |deck.drawPile|)
      requires CountActive(players) >= 2
      modifies player, deck`drawPile, this`isGameOver, (if drawnCard.data.cardType != Puckd then {drawnCard} else {})`owner
      ensures player.hand == HandAfterDraw(old(player.hand), Some(drawnCard))
      ensures player.isEliminated == Eliminates(old(player.hand), Some(drawnCard))
      ensures deck.drawPile == PileAfterDraw(DrawResult(Some(drawnCard), old(deck.drawPile), []), old(player.hand), pick)
      ensures drawnCard.data.cardType != Puckd ==> drawnCard.owner == player
      ensures isGameOver == (Eliminates(old(player.hand), Some(drawnCard)) && CountActive(players) <= 1)
      ensures !isGameOver ==> CountActive(players) >= 2
    {
      if drawnCard.data.cardType == Puckd {
        var saved := player.TryUseSaveCard();
        if saved {
          var randIndex := pick;
          deck.ReinsertPuckd(drawnCard, randIndex);
        } else {
          player.Eliminate();
          var _ := CheckGameOver();
        }
      } else {
        player.AddCardToHand(drawnCard);
      }
    }

    /** The draw phase, then the turn passes on. `order` is the reshuffle used
        when the draw pile is empty and `pick` the random depth at which a
        blocked Puck'd card goes back. Before the first game the roster is
        empty and looking up the current player fails before anything has
        changed: that failure leaves the state as it was. */
    method EndTurn(order: seq<Card>, pick: int)
      requires Valid()
      requires deck.drawPile == [] ==> multiset(order) == multiset(deck.discardPile)
      requires InRandomRange(pick, |DrawWithRetry(deck.drawPile, deck.discardPile, order).pile|)
      modifies this`currentPlayerIndex, this`isGameOver, deck, CurrentSeat(), TurnAdopted(order)`owner
      ensures Valid()
      ensures players == [] ==> unchanged(this, deck)
      ensures players != [] ==>
                TurnEnded(old(isGameOver), old(currentPlayerIndex), old(players[currentPlayerIndex].isEliminated),
                          old(deck.drawPile), old(players[currentPlayerIndex].hand),
                          old(DrawWithRetry(deck.drawPile, deck.discardPile, order)), pick)
      ensures players != [] ==>
                deck.discardPile == DiscardAfterTurn(old(isGameOver), old(deck.discardPile),
                                                     old(DrawWithRetry(deck.drawPile, deck.discardPile, order)))
      ensures players != [] ==>
                players[old(currentPlayerIndex)].hand
                == HandAfterTurn(old(isGameOver), old(players[currentPlayerIndex].hand),
                                 old(DrawWithRetry(deck.drawPile, deck.discardPile, order)))
    {
      if isGameOver {
        return;
      }
      if players == [] {
        return;
      }
      PlayOutTurn(order, pick);
    }

    /** EndTurn while the game runs: the current player (still in) draws,
        then the turn passes on. */
    method PlayOutTurn(order: seq<Card>, pick: int)
      requires Valid() && players != [] && !isGameOver
      requires deck.drawPile == [] ==> multiset(order) == multiset(deck.discardPile)
      requires InRandomRange(pick, |DrawWithRetry(deck.drawPile, deck.discardPile, order).pile|)
      modifies this`currentPlayerIndex, this`isGameOver, deck, CurrentSeat(), TurnAdopted(order)`owner
      ensures Valid()
      ensures TurnEnded(false, old(currentPlayerIndex), false, old(deck.drawPile), old(players[currentPlayerIndex].hand),
                        old(DrawWithRetry(deck.drawPile, deck.discardPile, order)), pick)
      ensures deck.discardPile == old(DrawWithRetry(deck.drawPile, deck.discardPile, order)).discard
      ensures players[old(currentPlayerIndex)].hand
              == HandAfterDraw(old(players[currentPlayerIndex].hand), old(DrawWithRetry(deck.drawPile, deck.discardPile, order)).drawn)
    {
      var player := players[currentPlayerIndex];
      ghost var from := currentPlayerIndex;
      ghost var D := deck.drawPile;
      ghost var r := DrawWithRetry(deck.drawPile, deck.discardPile, order);
      ghost var H := player.hand;

      var drawnCard := DrawForTurn(order);
      if drawnCard == null {
        AdvanceTurn();
        assert Seated();
        assert TurnEnded(false, from, false, D, H, r, pick);
        return;
      }
      ResolveDraw(player, drawnCard, pick);
      assert deck.drawPile == PileAfterDraw(r, H, pick) by {
        assert PileAfterDraw(DrawResult(Some(drawnCard), r.pile, []), H, pick) == PileAfterDraw(r, H, pick);
      }
      assert Turnable();
      AdvanceTurn();
      assert Seated();
      assert TurnEnded(false, from, false, D, H, r, pick);
    }
  }
}
