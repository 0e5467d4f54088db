/** Playing a card from a hand: the legality checks, the effect of each card
    type, and the bookkeeping of a successful play (the card leaves the hand,
    is marked played and goes onto the discard pile). */
module Actions {
  import opened Seqs
  import opened Cards
  import opened DrawPhase
  import opened Game

  /** Whether the effect of a card with configuration `data` succeeds:
      `targetActive` says the target exists and is still in the game,
      `pileSize` is the size of the draw pile and `seated` whether the table
      has players (ending a turn at an empty table indexes an empty roster,
      which the dispatcher's catch turns into a failure). */
  predicate EffectSucceeds(data: CardData, targetActive: bool, pileSize: nat, seated: bool)
  {
    match data.cardType
    case Puckd => false
    case Save => true
    case Cancel => true
    case Attack => targetActive
    case Skip => seated
    case Peek => Min(data.peekAmount, pileSize) > 0
    case Shuffle => true
  }

  /** Only a Skip card (ending the turn) and a Shuffle card (rebuilding the
      draw pile) touch the game; every other effect only decides success. */
  predicate ChangesGame(t: CardType)
  {
    t == Skip || t == Shuffle
  }

  /** The hand of `p` once a turn has ended: it changes only when `p` held
      the turn. */
  function HandAfterTurnOf(isCurrent: bool, wasOver: bool, hand: seq<Card>, r: DrawResult): seq<Card>
  {
    if isCurrent then HandAfterTurn(wasOver, hand, r) else hand
  }

  /** A card that a configuration check accepts against a target, and that
      needs one, is never refused by the Attack effect. */
  lemma TargetedPlayNeverMissesTarget(card: Card, target: Player?, pileSize: nat, seated: bool)
    requires card.CanPlay(target) && card.data.requiresTarget && card.data.cardType == Attack
    ensures EffectSucceeds(card.data, target != null && !target.isEliminated, pileSize, seated)
  {
    assert target != null && !target.isEliminated;
  }

  /** The state a play starts from (see CardActionHandler.Snap). */
  datatype Before = Before(hand: seq<Card>, turn: int, over: bool, drawPile: seq<Card>, discardPile: seq<Card>,
                           seat: Option<Player>, seatHand: seq<Card>, seatEliminated: bool)

  class CardActionHandler {
    const gameManager: GameManager

    constructor (gameManager: GameManager)
      ensures this.gameManager == gameManager
    {
      this.gameManager := gameManager;
    }

    /** A Puck'd card acts when it is drawn; playing one always fails. */
    method HandlePuckd(card: Card, player: Player) returns (ok: bool)
      ensures !ok
    {
      return false;
    }

    /** A Save card acts when a Puck'd card is drawn; playing one only readies it. */
    method HandleSave(card: Card, player: Player) returns (ok: bool)
      ensures ok
    {
      return true;
    }

    /** Cancelling the last action is not implemented; playing the card succeeds. */
    method HandleCancel(card: Card, player: Player) returns (ok: bool)
      ensures ok
    {
      return true;
    }

    /** Extra turns are not implemented; the play succeeds exactly when the
        target exists and is still in the game. */
    method HandleAttack(card: Card, player: Player, target: Player?) returns (ok: bool)
      ensures ok <==> target != null && !target.isEliminated
    {
      if target == null || target.isEliminated {
        return false;
      }
      return true;
    }

    /** Skip ends the current turn, draw phase included. At an empty table
        the roster lookup fails and the play is refused. */
    method HandleSkip(card: Card, player: Player, reshuffle: seq<Card>, pick: int) returns (ok: bool)
      requires gameManager.Valid()
      requires gameManager.deck.drawPile == [] ==> multiset(reshuffle) == multiset(gameManager.deck.discardPile)
      requires InRandomRange(pick, |DrawWithRetry(gameManager.deck.drawPile, gameManager.deck.discardPile, reshuffle).pile|)
      modifies gameManager`currentPlayerIndex, gameManager`isGameOver, gameManager.deck,
               gameManager.CurrentSeat(), gameManager.TurnAdopted(reshuffle)`owner
      ensures gameManager.Valid()
      ensures ok == (old(gameManager.players) != [])
      ensures !ok ==> unchanged(gameManager, gameManager.deck, player, card)
      ensures ok ==> SkipTaken(reshuffle, pick, old(DrawWithRetry(gameManager.deck.drawPile, gameManager.deck.discardPile, reshuffle)))
      ensures ok ==> player.hand == HandAfterTurnOf(player == old(gameManager.players[gameManager.currentPlayerIndex]),
                                                    old(gameManager.isGameOver), old(player.hand),
                                                    old(DrawWithRetry(gameManager.deck.drawPile, gameManager.deck.discardPile, reshuffle)))
    {
      if gameManager.players == [] {
        return false;
      }
      ghost var current := gameManager.players[gameManager.currentPlayerIndex];
      gameManager.EndTurn(reshuffle, pick);
      if player != current {
        assert player.hand == old(player.hand);
      }
      return true;
    }

    /** Peek reveals the top cards (top first) to the player who played it;
        the revealed cards are returned in place of the observer event. It
        fails when nothing can be shown. */
    method HandlePeek(card: Card, player: Player) returns (ok: bool, shown: seq<Card>)
      ensures |shown| == if card.data.peekAmount <= 0 then 0 else Min(card.data.peekAmount, |gameManager.deck.drawPile|)
      ensures shown == gameManager.deck.drawPile[..|shown|]
      ensures ok <==> card.data.peekAmount > 0 && gameManager.deck.drawPile != []
      ensures !ok ==> shown == []
    {
      var topCards := gameManager.deck.PeekTop(card.data.peekAmount);
      if |topCards| == 0 {
        return false, [];
      }
      return true, topCards;
    }

    /** Shuffle recombines both piles into a new draw pile (in the random
        `order`); it succeeds even when both piles are empty. */
    method HandleShuffle(card: Card, player: Player, order: seq<Card>) returns (ok: bool)
      requires multiset(order) == multiset(gameManager.deck.drawPile + gameManager.deck.discardPile)
      modifies gameManager.deck
      ensures ok
      ensures gameManager.deck.drawPile == Reverse(order) && gameManager.deck.discardPile == []
      ensures multiset(gameManager.deck.drawPile) == old(multiset(gameManager.deck.drawPile + gameManager.deck.discardPile))
    {
      ghost var both := gameManager.deck.drawPile + gameManager.deck.discardPile;
      gameManager.deck.Shuffle(order);
      if both == [] {
        assert |multiset(order)| == 0;
      }
      return true;
    }

    /** Dispatches on the card type. `shown` is what Peek reveals (empty for
        every other type and for a failed Peek). */
    method ProcessCardEffect(card: Card, player: Player, target: Player?,
                             reshuffle: seq<Card>, pick: int, order: seq<Card>) returns (ok: bool, shown: seq<Card>)
      requires gameManager.Valid()
      requires card.data.cardType == Skip ==> PlayChance(reshuffle, pick)
      requires card.data.cardType == Shuffle ==> ShuffleChance(order)
      modifies gameManager`currentPlayerIndex, gameManager`isGameOver, gameManager.deck,
               (if card.data.cardType == Skip then gameManager.CurrentSeat() else {}),
               (if card.data.cardType == Skip then gameManager.TurnAdopted(reshuffle) else {})`owner
      ensures gameManager.Valid()
      ensures ok == old(EffectSucceeds(card.data, target != null && !target.isEliminated,
                                       |gameManager.deck.drawPile|, gameManager.players != []))
      ensures !ok ==> unchanged(gameManager, gameManager.deck, player, card) && shown == []
      ensures ok ==> EffectHolds(card, player, pick, order, old(SkipDraw(card.data.cardType, reshuffle)),
                                 shown, player.hand, gameManager.deck.discardPile, old(Snap(player)))
    {
      shown := [];
      match card.data.cardType
      case Puckd => ok := HandlePuckd(card, player);
      case Save => ok := HandleSave(card, player);
      case Cancel => ok := HandleCancel(card, player);
      case Attack => ok := HandleAttack(card, player, target);
      case Skip => ok := HandleSkip(card, player, reshuffle, pick);
      case Peek => ok, shown := HandlePeek(card, player);
      case Shuffle => ok := HandleShuffle(card, player, order);
    }

    /** The random inputs a Skip play needs: the reshuffle for an empty draw
        pile and the depth at which a blocked Puck'd card goes back. */
    ghost predicate PlayChance(reshuffle: seq<Card>, pick: int)
      reads gameManager, gameManager.deck
    {
      && (gameManager.deck.drawPile == [] ==> multiset(reshuffle) == multiset(gameManager.deck.discardPile))
      && InRandomRange(pick, |DrawWithRetry(gameManager.deck.drawPile, gameManager.deck.discardPile, reshuffle).pile|)
    }

    /** The random input a Shuffle play needs: a reordering of both piles. */
    ghost predicate ShuffleChance(order: seq<Card>)
      reads gameManager, gameManager.deck
    {
      multiset(order) == multiset(gameManager.deck.drawPile + gameManager.deck.discardPile)
    }

    /** The turn ended as EndTurn ends it; `r` is the outcome of its draw. */
    twostate predicate SkipTaken(reshuffle: seq<Card>, pick: int, r: DrawResult)
      requires old(gameManager.Valid()) && old(gameManager.players) != []
      requires old(gameManager.deck.drawPile == [] ==> multiset(reshuffle) == multiset(gameManager.deck.discardPile))
      reads gameManager, gameManager.deck, gameManager.players, Adopted(r)`owner
    {
      && r == old(DrawWithRetry(gameManager.deck.drawPile, gameManager.deck.discardPile, reshuffle))
      && gameManager.TurnEnded(old(gameManager.isGameOver), old(gameManager.currentPlayerIndex),
                               old(gameManager.players[gameManager.currentPlayerIndex].isEliminated),
                               old(gameManager.deck.drawPile), old(gameManager.players[gameManager.currentPlayerIndex].hand), r, pick)
      && gameManager.deck.discardPile == DiscardAfterTurn(old(gameManager.isGameOver), old(gameManager.deck.discardPile), r)
      && gameManager.players[old(gameManager.currentPlayerIndex)].hand
         == HandAfterTurn(old(gameManager.isGameOver), old(gameManager.players[gameManager.currentPlayerIndex].hand), r)
    }

    /** The draw a Skip play makes when it ends the turn (nothing, for any
        other card type). */
    ghost function SkipDraw(t: CardType, reshuffle: seq<Card>): DrawResult
      requires t == Skip ==> gameManager.deck.drawPile == [] ==> multiset(reshuffle) == multiset(gameManager.deck.discardPile)
      reads gameManager, gameManager.deck
    {
      if t == Skip then DrawWithRetry(gameManager.deck.drawPile, gameManager.deck.discardPile, reshuffle)
      else DrawResult(None, [], [])
    }

    /** The bookkeeping of a successful play: the card's first occurrence
        leaves the hand, the card is marked played and goes onto the
        discard pile. */
    method SettlePlay(card: Card, player: Player)
      modifies player`hand, card`hasBeenPlayed, gameManager.deck`discardPile
      ensures player.hand == RemoveFirst(old(player.hand), card)
      ensures card.hasBeenPlayed
      ensures gameManager.deck.discardPile == old(gameManager.deck.discardPile) + [card]
    {
      player.RemoveCardFromHand(card);
      card.MarkAsPlayed();
      gameManager.deck.Discard(card);
    }

    /** The state a play starts from, as far as its effect depends on it:
        the player's hand, the turn, both piles and the seat whose turn it
        is (with its hand and elimination flag). */
    ghost function Snap(player: Player): Before
      reads player, gameManager, gameManager.deck, gameManager.players
    {
      var gm := gameManager;
      var seat := if 0 <= gm.currentPlayerIndex < |gm.players| then Some(gm.players[gm.currentPlayerIndex]) else None;
      Before(player.hand, gm.currentPlayerIndex, gm.isGameOver, gm.deck.drawPile, gm.deck.discardPile,
             seat, if seat.Some? then seat.value.hand else [], seat.Some? && seat.value.isEliminated)
    }

    /** The effect of a successful play of `card` by `player` from the state
        `b`, which leaves `shown` revealed, the hand `handMid` and the
        discard pile `discardMid`: a Skip ends the turn as EndTurn does
        (with the draw `r`), the draw landing in the hand of the seat whose
        turn ended, whoever played the card; a Shuffle rebuilds the draw pile from `order`;
        a Peek reveals the top cards; every other card changes nothing.
        Only a Skip moves the turn. */
    ghost predicate EffectHolds(card: Card, player: Player, pick: int, order: seq<Card>, r: DrawResult,
                                shown: seq<Card>, handMid: seq<Card>, discardMid: seq<Card>, b: Before)
      reads gameManager, gameManager.deck`drawPile, (set p | p in gameManager.players)`isEliminated, Adopted(r)`owner
      reads (if b.seat.Some? then {b.seat.value} else {})`hand
    {
      var t := card.data.cardType;
      var gm := gameManager;
      && (t != Skip ==> handMid == b.hand && gm.currentPlayerIndex == b.turn && gm.isGameOver == b.over)
      && (!ChangesGame(t) ==> gm.deck.drawPile == b.drawPile && discardMid == b.discardPile)
      && (t == Shuffle ==> gm.deck.drawPile == Reverse(order) && discardMid == [])
      && (t == Skip ==>
            && gm.TurnEnded(b.over, b.turn, b.seatEliminated, b.drawPile, b.seatHand, r, pick)
            && discardMid == DiscardAfterTurn(b.over, b.discardPile, r)
            && handMid == HandAfterTurnOf(b.seat == Some(player), b.over, b.hand, r)
            && (b.seat.Some? && b.seat.value != player ==> b.seat.value.hand == HandAfterTurn(b.over, b.seatHand, r)))
      && (t == Peek ==> shown == if card.data.peekAmount <= 0 then []
                                 else b.drawPile[..Min(card.data.peekAmount, |b.drawPile|)])
      && (t != Peek ==> shown == [])
    }

    /** The outcome of a play of `card` from the hand of `player`. A play the
        legality checks refuse, or whose effect fails, changes nothing and
        shows nothing. A successful one first has its effect, leaving the
        hand `handMid` and the discard pile `discardMid` (a Skip ends the
        turn, with its draw `r`; a Shuffle rebuilds the draw pile; a Peek
        shows the top cards; the others change nothing), and is then
        settled: the card leaves `handMid`, is marked played and is put on
        `discardMid`. */
    twostate predicate PlayResolved(card: Card, player: Player, target: Player?,
                                    reshuffle: seq<Card>, pick: int, order: seq<Card>, r: DrawResult,
                                    new shown: seq<Card>, new handMid: seq<Card>, new discardMid: seq<Card>)
      requires old(gameManager.Valid())
      requires old(card.data.cardType == Skip ==> PlayChance(reshuffle, pick))
      reads player, card, gameManager, gameManager.deck, gameManager.players, Adopted(r)`owner
    {
      var t := card.data.cardType;
      var ok := old(card.CanPlay(target)) && card in old(player.hand)
                && old(EffectSucceeds(card.data, target != null && !target.isEliminated,
                                      |gameManager.deck.drawPile|, gameManager.players != []));
      && r == old(SkipDraw(t, reshuffle))
      && (!ok ==> unchanged(player, card, gameManager, gameManager.deck) && shown == [])
      && (ok ==>
            && gameManager.players == old(gameManager.players)
            && EffectHolds(card, player, pick, order, r, shown, handMid, discardMid, old(Snap(player)))
            && card.hasBeenPlayed
            && player.hand == RemoveFirst(handMid, card)
            && gameManager.deck.discardPile == discardMid + [card])
    }

    /** Plays `card` from the hand of `player`: the card must pass its own
        legality check against `target` and be in the hand; then its effect
        runs and, when it succeeds, the play is settled. `shown` is what a
        Peek reveals. */
    method HandleCardPlay(card: Card, player: Player, target: Player?,
                          reshuffle: seq<Card>, pick: int, order: seq<Card>)
      returns (shown: seq<Card>, ghost handMid: seq<Card>, ghost discardMid: seq<Card>)
      requires gameManager.Valid()
      requires card.data.cardType == Skip ==> PlayChance(reshuffle, pick)
      requires card.data.cardType == Shuffle ==> ShuffleChance(order)
      modifies player`hand, card`hasBeenPlayed,
               gameManager`currentPlayerIndex, gameManager`isGameOver, gameManager.deck,
               (if card.data.cardType == Skip && card.CanPlay(target) && card in player.hand then gameManager.CurrentSeat() else {}),
               (if card.data.cardType == Skip && card.CanPlay(target) && card in player.hand then gameManager.TurnAdopted(reshuffle) else {})`owner
      ensures gameManager.Valid()
      ensures PlayResolved(card, player, target, reshuffle, pick, order, old(SkipDraw(card.data.cardType, reshuffle)),
                           shown, handMid, discardMid)
    {
      if !card.CanPlay(target) {
        return [], [], [];
      }
      if card !in player.hand {
        return [], [], [];
      }
      shown, handMid, discardMid := PlayAccepted(card, player, target, reshuffle, pick, order);
    }

    /** The part of HandleCardPlay after both checks have passed: the
        effect, then the bookkeeping when it succeeded. */
    method PlayAccepted(card: Card, player: Player, target: Player?,
                        reshuffle: seq<Card>, pick: int, order: seq<Card>)
      returns (shown: seq<Card>, ghost handMid: seq<Card>, ghost discardMid: seq<Card>)
      requires card.CanPlay(target) && card in player.hand
      requires gameManager.Valid()
      requires card.data.cardType == Skip ==> PlayChance(reshuffle, pick)
      requires card.data.cardType == Shuffle ==> ShuffleChance(order)
      modifies player`hand, card`hasBeenPlayed,
               gameManager`currentPlayerIndex, gameManager`isGameOver, gameManager.deck,
               (if card.data.cardType == Skip then gameManager.CurrentSeat() else {}),
               (if card.data.cardType == Skip then gameManager.TurnAdopted(reshuffle) else {})`owner
      ensures gameManager.Valid()
      ensures PlayResolved(card, player, target, reshuffle, pick, order, old(SkipDraw(card.data.cardType, reshuffle)),
                           shown, handMid, discardMid)
    {
      ghost var before := Snap(player);
      ghost var r := SkipDraw(card.data.cardType, reshuffle);
      var wasSuccessful;
      wasSuccessful, shown := ProcessCardEffect(card, player, target, reshuffle, pick, order);
      handMid, discardMid := player.hand, gameManager.deck.discardPile;
      if wasSuccessful {
        SettleKeepingEffect(card, player, pick, order, r, shown, before);
      }
    }

    /** SettlePlay, carrying the effect that came before it: settling
        touches neither the turn, the draw pile, the elimination flags nor
        card owners. */
    method SettleKeepingEffect(card: Card, player: Player, ghost pick: int, ghost order: seq<Card>,
                               ghost r: DrawResult, ghost shown: seq<Card>, ghost b: Before)
      requires gameManager.Valid()
      requires EffectHolds(card, player, pick, order, r, shown, player.hand, gameManager.deck.discardPile, b)
      modifies player`hand, card`hasBeenPlayed, gameManager.deck`discardPile
      ensures gameManager.Valid()
      ensures EffectHolds(card, player, pick, order, r, shown, old(player.hand), old(gameManager.deck.discardPile), b)
      ensures player.hand == RemoveFirst(old(player.hand), card)
      ensures card.hasBeenPlayed
      ensures gameManager.deck.discardPile == old(gameManager.deck.discardPile) + [card]
    {
      SettlePlay(card, player);
    }
  }

  /** Player.PlayCard: a card not in the hand, or a player already out of
      the game, plays nothing; otherwise the play goes to the game's card
      handler. */
  method PlayCard(player: Player, card: Card, handler: CardActionHandler, target: Player?,
                  reshuffle: seq<Card>, pick: int, order: seq<Card>)
    returns (shown: seq<Card>, ghost handMid: seq<Card>, ghost discardMid: seq<Card>)
    requires handler.gameManager.Valid()
    requires card.data.cardType == Skip ==> handler.PlayChance(reshuffle, pick)
    requires card.data.cardType == Shuffle ==> handler.ShuffleChance(order)
    modifies player`hand, card`hasBeenPlayed,
             handler.gameManager`currentPlayerIndex, handler.gameManager`isGameOver, handler.gameManager.deck,
             (if card.data.cardType == Skip && card in player.hand && !player.isEliminated && card.CanPlay(target)
              then handler.gameManager.CurrentSeat() else {}),
             (if card.data.cardType == Skip && card in player.hand && !player.isEliminated && card.CanPlay(target)
              then handler.gameManager.TurnAdopted(reshuffle) else {})`owner
    ensures handler.gameManager.Valid()
    ensures card !in old(player.hand) || old(player.isEliminated) ==>
              unchanged(player, card, handler.gameManager, handler.gameManager.deck) && shown == []
    ensures card in old(player.hand) && !old(player.isEliminated) ==>
              handler.PlayResolved(card, player, target, reshuffle, pick, order,
                                   old(handler.SkipDraw(card.data.cardType, reshuffle)), shown, handMid, discardMid)
  {
    if card !in player.hand {
      return [], [], [];
    }
    if player.isEliminated {
      return [], [], [];
    }
    shown, handMid, discardMid := handler.HandleCardPlay(card, player, target, reshuffle, pick, order);
  }
}
