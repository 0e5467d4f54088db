/** What the draw phase of a turn does to the deck and to the hand of the
    player whose turn ends, as functions of the state before it: one card is
    drawn (after one reshuffle when the draw pile is empty); a Puck'd card is
    either blocked by the first Save card in hand and put back into the draw
    pile, or eliminates the player; any other card joins the hand. */
module DrawPhase {
  import opened Seqs
  import opened Cards

  /** The card drawn (None when nothing could be drawn) and the two piles after the draw. */
  datatype DrawResult = DrawResult(drawn: Option<Card>, pile: seq<Card>, discard: seq<Card>)

  /** Draw; on an empty draw pile, shuffle (with the caller-chosen `order` of
      the discards) and draw again. */
  function DrawWithRetry(drawPile: seq<Card>, discardPile: seq<Card>, order: seq<Card>): (r: DrawResult)
    requires drawPile == [] ==> multiset(order) == multiset(discardPile)
    ensures r.drawn == None <==> drawPile == [] && discardPile == []
    ensures r.drawn.Some? ==> r.drawn.value in drawPile + discardPile
    ensures drawPile != [] ==> r.drawn == Some(drawPile[0]) && r.pile == drawPile[1..] && r.discard == discardPile
    ensures drawPile == [] ==> r.discard == []
    ensures drawPile == [] && r.drawn.Some? ==> [r.drawn.value] + r.pile == Reverse(order)
  {
    if drawPile != [] then DrawResult(Some(drawPile[0]), drawPile[1..], discardPile)
    else if discardPile == [] then DrawResult(None, [], [])
    else
      assert |order| == |multiset(order)| == |discardPile|;
      var s := Reverse(order);
      assert s[0] in multiset(order);
      DrawResult(Some(s[0]), s[1..], [])
  }

  /** Unity's integer Random.Range(0, max): a value in [0, max), or 0 when max <= 0. */
  predicate InRandomRange(v: int, max: int)
  {
    if max > 0 then 0 <= v < max else v == 0
  }

  /** The drawn card is Puck'd and the hand can block it. */
  predicate Saves(hand: seq<Card>, drawn: Option<Card>)
  {
    drawn.Some? && drawn.value.data.cardType == Puckd && HasType(hand, Save)
  }

  /** The drawn card is Puck'd and the hand cannot block it. */
  predicate Eliminates(hand: seq<Card>, drawn: Option<Card>)
  {
    drawn.Some? && drawn.value.data.cardType == Puckd && !HasType(hand, Save)
  }

  /** The hand after the draw phase of an active player. */
  function HandAfterDraw(hand: seq<Card>, drawn: Option<Card>): seq<Card>
  {
    if drawn.None? then hand
    else if drawn.value.data.cardType != Puckd then hand + [drawn.value]
    else if HasType(hand, Save) then RemoveAt(hand, FirstOfType(hand, Save))
    else []
  }

  /** The draw pile after the draw phase: a blocked Puck'd card is reinserted
      at the (clamped) random depth `pick`. */
  function PileAfterDraw(r: DrawResult, hand: seq<Card>, pick: int): seq<Card>
  {
    if Saves(hand, r.drawn) then InsertAt(r.pile, Clamp(pick, 0, |r.pile|), r.drawn.value)
    else r.pile
  }

  /** The drawn card when it joins the hand (anything but Puck'd does). */
  function Adopted(r: DrawResult): (s: set<Card>)
    ensures forall c :: c in s ==> r.drawn == Some(c) && c.data.cardType != Puckd
    ensures r.drawn.Some? && r.drawn.value.data.cardType != Puckd ==> r.drawn.value in s
  {
    if r.drawn.Some? && r.drawn.value.data.cardType != Puckd then {r.drawn.value} else {}
  }

  /** The discard pile after a turn that ended (nothing happens once the game is over). */
  function DiscardAfterTurn(wasOver: bool, discardPile: seq<Card>, r: DrawResult): seq<Card>
  {
    if wasOver then discardPile else r.discard
  }

  /** The hand of the player whose turn ended. */
  function HandAfterTurn(wasOver: bool, hand: seq<Card>, r: DrawResult): seq<Card>
  {
    if wasOver then hand else HandAfterDraw(hand, r.drawn)
  }

  /** Card conservation across the draw phase: drawing a card other than
      Puck'd (or nothing) moves cards between the piles and the hand but
      neither creates nor loses any. */
  lemma OrdinaryDrawConservesCards(drawPile: seq<Card>, discardPile: seq<Card>, order: seq<Card>, hand: seq<Card>, pick: int)
    requires drawPile == [] ==> multiset(order) == multiset(discardPile)
    requires !Saves(hand, DrawWithRetry(drawPile, discardPile, order).drawn)
    requires !Eliminates(hand, DrawWithRetry(drawPile, discardPile, order).drawn)
    ensures
      var r := DrawWithRetry(drawPile, discardPile, order);
      multiset(PileAfterDraw(r, hand, pick)) + multiset(r.discard) + multiset(HandAfterDraw(hand, r.drawn))
      == multiset(drawPile) + multiset(discardPile) + multiset(hand)
  {
    var r := DrawWithRetry(drawPile, discardPile, order);
    DrawnCardAccounted(drawPile, discardPile, order);
    if r.drawn.Some? {
      assert HandAfterDraw(hand, r.drawn) == hand + [r.drawn.value];
    }
  }

  /** The one exception for a blocked Puck'd: the Save card spent goes to no
      pile, and every other card is still in play. */
  lemma SavedDrawLosesOnlyTheSave(drawPile: seq<Card>, discardPile: seq<Card>, order: seq<Card>, hand: seq<Card>, pick: int)
    requires drawPile == [] ==> multiset(order) == multiset(discardPile)
    requires Saves(hand, DrawWithRetry(drawPile, discardPile, order).drawn)
    ensures
      var r := DrawWithRetry(drawPile, discardPile, order);
      multiset(PileAfterDraw(r, hand, pick)) + multiset(r.discard) + multiset(HandAfterDraw(hand, r.drawn))
      == multiset(drawPile) + multiset(discardPile) + multiset(hand) - multiset{hand[FirstOfType(hand, Save)]}
  {
    var r := DrawWithRetry(drawPile, discardPile, order);
    DrawnCardAccounted(drawPile, discardPile, order);
    var c := r.drawn.value;
    var i := FirstOfType(hand, Save);
    var m := multiset(hand) - multiset{hand[i]};
    assert multiset(hand) == m + multiset{hand[i]};
    assert multiset(PileAfterDraw(r, hand, pick)) == multiset(r.pile) + multiset{c};
    assert multiset(HandAfterDraw(hand, r.drawn)) == m;
  }

  /** The exception for an elimination: the eliminated player's hand and the
      Puck'd card leave play; the piles keep every other card. */
  lemma EliminationForfeitsHand(drawPile: seq<Card>, discardPile: seq<Card>, order: seq<Card>, hand: seq<Card>, pick: int)
    requires drawPile == [] ==> multiset(order) == multiset(discardPile)
    requires Eliminates(hand, DrawWithRetry(drawPile, discardPile, order).drawn)
    ensures
      var r := DrawWithRetry(drawPile, discardPile, order);
      && HandAfterDraw(hand, r.drawn) == []
      && multiset(PileAfterDraw(r, hand, pick)) + multiset(r.discard)
         == multiset(drawPile) + multiset(discardPile) - multiset{r.drawn.value}
  {
    DrawnCardAccounted(drawPile, discardPile, order);
  }

  /** Every card of the two piles is either the drawn card or still in a pile. */
  lemma DrawnCardAccounted(drawPile: seq<Card>, discardPile: seq<Card>, order: seq<Card>)
    requires drawPile == [] ==> multiset(order) == multiset(discardPile)
    ensures
      var r := DrawWithRetry(drawPile, discardPile, order);
      && (r.drawn.None? ==> r.pile == [] && r.discard == [])
      && (r.drawn.Some? ==>
            multiset{r.drawn.value} + multiset(r.pile) + multiset(r.discard)
            == multiset(drawPile) + multiset(discardPile))
  {
    var r := DrawWithRetry(drawPile, discardPile, order);
    if r.drawn.Some? {
      var c := r.drawn.value;
      if drawPile != [] {
        assert drawPile == [c] + r.pile;
      } else {
        ReverseMultiset(order);
        assert multiset([c] + r.pile) == multiset(order);
      }
    }
  }

  /** A blocked Puck'd card goes back into the draw pile at the random depth,
      so the pile is as large as it was just before the draw, and the hand
      holds exactly one Save card fewer. */
  lemma SavedPuckdReturnsToPile(drawPile: seq<Card>, discardPile: seq<Card>, order: seq<Card>, hand: seq<Card>, pick: int)
    requires drawPile == [] ==> multiset(order) == multiset(discardPile)
    requires InRandomRange(pick, |DrawWithRetry(drawPile, discardPile, order).pile|)
    requires Saves(hand, DrawWithRetry(drawPile, discardPile, order).drawn)
    ensures
      var r := DrawWithRetry(drawPile, discardPile, order);
      var pile := PileAfterDraw(r, hand, pick);
      && pile[pick] == r.drawn.value
      && |pile| == (if drawPile != [] then |drawPile| else |discardPile|)
      && (pick < |r.pile| || r.pile == [])
      && CountOfType(HandAfterDraw(hand, r.drawn), Save) == CountOfType(hand, Save) - 1
  {
    var r := DrawWithRetry(drawPile, discardPile, order);
    CountOfTypeRemoveAt(hand, FirstOfType(hand, Save), Save);
    if drawPile == [] {
      assert |[r.drawn.value] + r.pile| == |order| == |multiset(order)| == |discardPile|;
    }
  }
}
