/** The pieces of a game of Puck'd: card configurations, runtime cards, the deck
    and the players. Card, Deck and Player live in one module because each of
    them refers to another (a card's owner is a player, a player draws from a
    deck, a deck holds cards). */
module Cards {
  import opened Seqs

  /** The seven kinds of card. */
  datatype CardType = Puckd | Save | Cancel | Attack | Skip | Peek | Shuffle

  /** The immutable configuration of one card archetype (taken from the
      inspector-authored asset; description, artwork and canBeCountered play
      no part in the rules). */
  datatype CardData = CardData(
    cardName: string,
    cardType: CardType,
    requiresTarget: bool,
    peekAmount: int,
    extraTurns: int)

  /** One line of the card pool: a configuration (None models a missing asset)
      and how many copies of it go into the deck. */
  datatype CardEntry = CardEntry(cardData: Option<CardData>, count: int)

  /** The configurations of a sequence of cards, in order. */
  function DataOf(cards: seq<Card>): (ds: seq<CardData>)
    ensures |ds| == |cards|
    ensures forall k :: 0 <= k < |cards| ==> ds[k] == cards[k].data
  {
    seq(|cards|, k requires 0 <= k < |cards| => cards[k].data)
  }

  lemma DataOfSlice(cards: seq<Card>, a: int, b: int)
    requires 0 <= a <= b <= |cards|
    ensures DataOf(cards[a..b]) == DataOf(cards)[a..b]
  {
  }

  lemma DataOfConcat(a: seq<Card>, b: seq<Card>)
    ensures DataOf(a + b) == DataOf(a) + DataOf(b)
  {
  }

  /** Whether some card in the sequence is of type t (the `Any` query). */
  function HasType(cards: seq<Card>, t: CardType): (b: bool)
    ensures b <==> exists k :: 0 <= k < |cards| && cards[k].data.cardType == t
  {
    if cards == [] then false
    else if cards[0].data.cardType == t then true
    else
      assert forall k :: 1 <= k < |cards| ==> cards[k] == cards[1..][k - 1];
      HasType(cards[1..], t)
  }

  /** The position of the first card of type t (the `FirstOrDefault` search). */
  function FirstOfType(cards: seq<Card>, t: CardType): (i: nat)
    requires HasType(cards, t)
    ensures i < |cards| && cards[i].data.cardType == t
    ensures forall k :: 0 <= k < i ==> cards[k].data.cardType != t
  {
    if cards[0].data.cardType == t then 0
    else
      assert HasType(cards[1..], t) by {
        var k :| 0 <= k < |cards| && cards[k].data.cardType == t;
        assert cards[1..][k - 1] == cards[k];
      }
      1 + FirstOfType(cards[1..], t)
  }

  /** How many cards of type t the sequence holds. */
  function CountOfType(cards: seq<Card>, t: CardType): nat
  {
    if cards == [] then 0
    else (if cards[0].data.cardType == t then 1 else 0) + CountOfType(cards[1..], t)
  }

  lemma {:induction false} CountOfTypeConcat(a: seq<Card>, b: seq<Card>, t: CardType)
    ensures CountOfType(a + b, t) == CountOfType(a, t) + CountOfType(b, t)
  {
    if a != [] {
      CountOfTypeConcat(a[1..], b, t);
      assert (a + b)[1..] == a[1..] + b;
    } else {
      assert a + b == b;
    }
  }

  lemma CountOfTypeRemoveAt(cards: seq<Card>, i: nat, t: CardType)
    requires i < |cards|
    ensures CountOfType(RemoveAt(cards, i), t)
            == CountOfType(cards, t) - (if cards[i].data.cardType == t then 1 else 0)
  {
    assert cards == cards[..i] + ([cards[i]] + cards[i + 1..]);
    assert RemoveAt(cards, i) == cards[..i] + cards[i + 1..];
    CountOfTypeConcat(cards[..i], [cards[i]] + cards[i + 1..], t);
    CountOfTypeConcat([cards[i]], cards[i + 1..], t);
    CountOfTypeConcat(cards[..i], cards[i + 1..], t);
    assert CountOfType([cards[i]], t) == if cards[i].data.cardType == t then 1 else 0 by {
      assert [cards[i]][1..] == [];
    }
  }

  lemma {:induction false} CountOfTypePositive(cards: seq<Card>, t: CardType)
    ensures HasType(cards, t) <==> CountOfType(cards, t) > 0
  {
    if cards != [] {
      CountOfTypePositive(cards[1..], t);
      assert HasType(cards, t) == (cards[0].data.cardType == t || HasType(cards[1..], t)) by {
        assert forall k :: 1 <= k < |cards| ==> cards[k] == cards[1..][k - 1];
      }
    }
  }

  /** A runtime card: a shared configuration, the player holding it, and a
      played flag that is only ever set. */
  class Card {
    const data: CardData
    var owner: Player?
    var hasBeenPlayed: bool

    constructor (cardData: CardData, cardOwner: Player?)
      ensures data == cardData && owner == cardOwner && !hasBeenPlayed
    {
      data := cardData;
      owner := cardOwner;
      hasBeenPlayed := false;
    }

    /** Whether the card may be played now, against the given target. */
    function CanPlay(target: Player?): (r: bool)
      reads this, owner, target
      ensures hasBeenPlayed ==> !r
      ensures owner == null || owner.isEliminated ==> !r
      ensures data.requiresTarget && (target == null || target.isEliminated) ==> !r
      ensures !data.requiresTarget ==> r == (!hasBeenPlayed && owner != null && !owner.isEliminated)
      ensures (!hasBeenPlayed && owner != null && !owner.isEliminated
               && (data.requiresTarget ==> target != null && !target.isEliminated)) ==> r
    {
      if hasBeenPlayed then false
      else if owner == null then false
      else if owner.isEliminated then false
      else if data.requiresTarget && target == null then false
      else if data.requiresTarget && target.isEliminated then false
      else true
    }

    method MarkAsPlayed()
      modifies this`hasBeenPlayed
      ensures hasBeenPlayed
    {
      hasBeenPlayed := true;
    }
  }

  /** The draw pile, read top first (index 0 is the next card drawn), and the
      discard pile in the order cards reached it. */
  class Deck {
    var drawPile: seq<Card>
    var discardPile: seq<Card>

    constructor ()
      ensures drawPile == [] && discardPile == []
    {
      drawPile := [];
      discardPile := [];
    }

    function CardsRemaining(): (n: nat)
      reads this`drawPile
      ensures n == |drawPile|
    {
      |drawPile|
    }

    function CardsDiscarded(): (n: nat)
      reads this`discardPile
      ensures n == |discardPile|
    {
      |discardPile|
    }

    /** Builds one fresh card per configuration. `shuffled` is the random
        reordering of the input; pushing it onto a stack puts its last
        element on top. A missing or empty list keeps the old piles. */
    method Initialize(allCardData: Option<seq<CardData>>, shuffled: seq<CardData>)
      requires allCardData.Some? ==> multiset(shuffled) == multiset(allCardData.value)
      modifies this
      ensures allCardData == None || allCardData.value == [] ==> unchanged(this)
      ensures allCardData.Some? && allCardData.value != [] ==>
        && DataOf(drawPile) == Reverse(shuffled)
        && multiset(DataOf(drawPile)) == multiset(allCardData.value)
        && discardPile == []
        && (forall k :: 0 <= k < |drawPile| ==>
              fresh(drawPile[k]) && drawPile[k].owner == null && !drawPile[k].hasBeenPlayed)
        && Distinct(drawPile)
    {
      if allCardData == None || allCardData.value == [] {
        return;
      }
      var cards: seq<Card> := [];
      var n := |shuffled|;
      for k := 0 to n
        invariant |cards| == k
        invariant forall j :: 0 <= j < k ==> cards[j].data == shuffled[k - 1 - j]
        invariant forall j :: 0 <= j < k ==> fresh(cards[j]) && cards[j].owner == null && !cards[j].hasBeenPlayed
        invariant forall i, j :: 0 <= i < j < k ==> cards[i] != cards[j]
      {
        var c := new Card(shuffled[k], null);
        cards := [c] + cards;
      }
      drawPile := cards;
      discardPile := [];
      assert DataOf(drawPile) == Reverse(shuffled);
      ReverseMultiset(shuffled);
    }

    /** Pops the top card; null on an empty pile. */
    method Draw() returns (card: Card?)
      modifies this`drawPile
      ensures old(drawPile) == [] ==> card == null && drawPile == []
      ensures old(drawPile) != [] ==> card == old(drawPile)[0] && drawPile == old(drawPile)[1..]
    {
      if |drawPile| == 0 {
        return null;
      }
      card := drawPile[0];
      drawPile := drawPile[1..];
    }

    /** Appends the card to the discard pile and marks it played. */
    method Discard(card: Card?)
      modifies this`discardPile, (if card == null then {} else {card})`hasBeenPlayed
      ensures card == null ==> discardPile == old(discardPile)
      ensures card != null ==> discardPile == old(discardPile) + [card] && card.hasBeenPlayed
    {
      if card == null {
        return;
      }
      discardPile := discardPile + [card];
      card.MarkAsPlayed();
    }

    /** Recombines both piles. `order` is the random reordering of the draw
        pile followed by the discard pile; the stack built from it has the
        last element of `order` on top. Both piles empty: nothing happens. */
    method Shuffle(order: seq<Card>)
      requires multiset(order) == multiset(drawPile + discardPile)
      modifies this
      ensures old(drawPile) == [] && old(discardPile) == [] ==> unchanged(this)
      ensures old(drawPile) != [] || old(discardPile) != [] ==>
        drawPile == Reverse(order) && discardPile == []
      ensures multiset(drawPile + discardPile) == old(multiset(drawPile + discardPile))
      ensures |drawPile| + |discardPile| == old(|drawPile| + |discardPile|)
    {
      if |drawPile| == 0 && |discardPile| == 0 {
        return;
      }
      ghost var before := drawPile + discardPile;
      drawPile := Reverse(order);
      discardPile := [];
      ReverseMultiset(order);
      assert drawPile + discardPile == drawPile;
      assert |multiset(drawPile)| == |multiset(before)|;
    }

    /** Puts a Puck'd card back into the draw pile at depth index (0 = next
        draw), clamped into [0, CardsRemaining]. Any other card, and null,
        is refused. */
    method ReinsertPuckd(puckdCard: Card?, index: int)
      modifies this`drawPile
      ensures puckdCard == null || puckdCard.data.cardType != Puckd ==> drawPile == old(drawPile)
      ensures puckdCard != null && puckdCard.data.cardType == Puckd ==>
        drawPile == InsertAt(old(drawPile), Clamp(index, 0, |old(drawPile)|), puckdCard)
    {
      if puckdCard == null || puckdCard.data.cardType != Puckd {
        return;
      }
      var cards := drawPile;
      var at := Clamp(index, 0, |cards|);
      cards := InsertAt(cards, at, puckdCard);
      drawPile := cards;
    }

    /** The top `count` cards, top first, without removing them. */
    function PeekTop(count: int): (r: seq<Card>)
      reads this`drawPile
      ensures |r| == if count <= 0 then 0 else Min(count, |drawPile|)
      ensures r == drawPile[..|r|]
    {
      var n := Min(count, |drawPile|);
      if n <= 0 then [] else drawPile[..n]
    }
  }

  /** A seat at the table: a fixed turn-order index, a hand and a one-way
      elimination flag. */
  class Player {
    const name: string
    const playerIndex: int
    var isEliminated: bool
    var hand: seq<Card>

    constructor (name: string, index: int)
      ensures this.name == name && playerIndex == index
      ensures !isEliminated && hand == []
    {
      this.name := name;
      playerIndex := index;
      isEliminated := false;
      hand := [];
    }

    function HandSize(): (n: nat)
      reads this`hand
      ensures n == |hand|
    {
      |hand|
    }

    function HasCardOfType(t: CardType): (b: bool)
      reads this`hand
      ensures b <==> exists k :: 0 <= k < |hand| && hand[k].data.cardType == t
    {
      HasType(hand, t)
    }

    /** Draws the top card of the deck into the hand. */
    method DrawCard(deck: Deck) returns (drew: bool)
      modifies this`hand, deck`drawPile, (if isEliminated || deck.drawPile == [] then {} else {deck.drawPile[0]})`owner
      ensures old(isEliminated) ==> !drew && deck.drawPile == old(deck.drawPile)
      ensures !drew ==> hand == old(hand)
      ensures !old(isEliminated) && old(deck.drawPile) == [] ==> !drew && deck.drawPile == []
      ensures !old(isEliminated) && old(deck.drawPile) != [] ==>
        && drew
        && hand == old(hand) + [old(deck.drawPile)[0]]
        && deck.drawPile == old(deck.drawPile)[1..]
        && old(deck.drawPile)[0].owner == this
    {
      if isEliminated {
        return false;
      }
      var card := deck.Draw();
      if card == null {
        return false;
      }
      AddCardToHand(card);
      return true;
    }

    /** Appends the card to the hand and makes this player its owner. */
    method AddCardToHand(card: Card?)
      modifies this`hand, (if card == null then {} else {card})`owner
      ensures card == null ==> hand == old(hand)
      ensures card != null ==> hand == old(hand) + [card] && card.owner == this
    {
      if card == null {
        return;
      }
      hand := hand + [card];
      card.owner := this;
    }

    /** Removes the first occurrence of the card; an absent card is a no-op. */
    method RemoveCardFromHand(card: Card)
      modifies this`hand
      ensures card !in old(hand) ==> hand == old(hand)
      ensures card in old(hand) ==> hand == RemoveAt(old(hand), IndexOf(old(hand), card))
    {
      if card !in hand {
        return;
      }
      hand := RemoveFirst(hand, card);
    }

    /** Spends the first Save card of the hand against a Puck'd draw. */
    method TryUseSaveCard() returns (saved: bool)
      modifies this`hand
      ensures saved == (!isEliminated && HasType(old(hand), Save))
      ensures saved ==> hand == RemoveAt(old(hand), FirstOfType(old(hand), Save))
      ensures saved ==> CountOfType(hand, Save) == CountOfType(old(hand), Save) - 1
      ensures !saved ==> hand == old(hand)
    {
      if isEliminated {
        return false;
      }
      if !HasType(hand, Save) {
        return false;
      }
      var at := FirstOfType(hand, Save);
      var save := hand[at];
      assert IndexOf(hand, save) == at;
      CountOfTypeRemoveAt(hand, at, Save);
      RemoveCardFromHand(save);
      return true;
    }

    /** Marks the player eliminated and forfeits the hand; a second call does
        nothing. */
    method Eliminate()
      modifies this`isEliminated, this`hand
      ensures isEliminated
      ensures old(isEliminated) ==> hand == old(hand)
      ensures !old(isEliminated) ==> hand == []
    {
      if isEliminated {
        return;
      }
      isEliminated := true;
      hand := [];
    }
  }
}
