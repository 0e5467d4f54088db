/** The card pool a game is built from and the way the opening deal splits
    the deck: each entry contributes `count` copies of its configuration,
    each seat in turn draws up to the starting hand size from the top, and
    each seat receives extra copies of the pool's first Save configuration. */
module Pool {
  import opened Seqs
  import opened Cards

  /** `count` copies of d; none when count <= 0. */
  function Copies(d: CardData, count: int): (r: seq<CardData>)
    ensures |r| == if count <= 0 then 0 else count
    ensures forall k :: 0 <= k < |r| ==> r[k] == d
  {
    seq(if count <= 0 then 0 else count, _ => d)
  }

  /** The cards one entry contributes; an entry without a configuration contributes none. */
  function EntryCards(e: CardEntry): (r: seq<CardData>)
    ensures forall d :: d in r <==> e.cardData == Some(d) && e.count > 0
  {
    match e.cardData
    case None => []
    case Some(d) =>
      assert e.count > 0 ==> Copies(d, e.count)[0] == d;
      Copies(d, e.count)
  }

  /** The pool: every entry's copies, in entry order. */
  function Expanded(entries: seq<CardEntry>): seq<CardData>
  {
    if entries == [] then []
    else Expanded(entries[..|entries| - 1]) + EntryCards(entries[|entries| - 1])
  }

  /** The number of copies the entries ask for, summed from the first entry on. */
  function TotalCopies(entries: seq<CardEntry>): nat
  {
    if entries == [] then 0
    else (if entries[0].cardData.None? || entries[0].count <= 0 then 0 else entries[0].count)
         + TotalCopies(entries[1..])
  }

  lemma {:induction false} ExpandedAppend(a: seq<CardEntry>, b: seq<CardEntry>)
    ensures Expanded(a + b) == Expanded(a) + Expanded(b)
    decreases |b|
  {
    if b == [] {
      assert a + b == a;
    } else {
      var b' := b[..|b| - 1];
      assert (a + b)[..|a + b| - 1] == a + b';
      assert (a + b)[|a + b| - 1] == b[|b| - 1];
      ExpandedAppend(a, b');
    }
  }

  /** The pool holds exactly as many cards as the entries ask for. */
  lemma {:induction false} ExpandedLength(entries: seq<CardEntry>)
    ensures |Expanded(entries)| == TotalCopies(entries)
  {
    if entries != [] {
      assert entries == [entries[0]] + entries[1..];
      ExpandedAppend([entries[0]], entries[1..]);
      ExpandedLength(entries[1..]);
      assert Expanded([entries[0]]) == EntryCards(entries[0]) by {
        assert [entries[0]][..0] == [];
      }
    }
  }

  /** A configuration is in the pool exactly when some entry holds it with a positive count. */
  lemma {:induction false} ExpandedMembers(entries: seq<CardEntry>, d: CardData)
    ensures d in Expanded(entries) <==>
      exists k :: 0 <= k < |entries| && entries[k].cardData == Some(d) && entries[k].count > 0
  {
    if entries != [] {
      var n := |entries| - 1;
      var front := entries[..n];
      ExpandedMembers(front, d);
      assert forall k :: 0 <= k < n ==> front[k] == entries[k];
      if d in Expanded(entries) && d !in Expanded(front) {
        assert d in EntryCards(entries[n]);
      }
    }
  }

  /** The configuration `FirstOrDefault(type == Save)` finds in the pool. */
  function FirstSave(pool: seq<CardData>): Option<CardData>
  {
    if pool == [] then None
    else if pool[0].cardType == Save then Some(pool[0])
    else FirstSave(pool[1..])
  }

  /** FirstSave finds nothing exactly when the pool has no Save
      configuration, and otherwise the earliest one. */
  lemma {:induction false} FirstSaveFinds(pool: seq<CardData>)
    ensures FirstSave(pool).None? <==> forall k :: 0 <= k < |pool| ==> pool[k].cardType != Save
    ensures FirstSave(pool).Some? ==>
      exists k :: 0 <= k < |pool| && pool[k] == FirstSave(pool).value && pool[k].cardType == Save
                  && forall j :: 0 <= j < k ==> pool[j].cardType != Save
  {
    if pool != [] && pool[0].cardType != Save {
      FirstSaveFinds(pool[1..]);
      assert forall k :: 1 <= k < |pool| ==> pool[k] == pool[1..][k - 1];
      if FirstSave(pool).Some? {
        var k :| 0 <= k < |pool[1..]| && pool[1..][k] == FirstSave(pool).value && pool[1..][k].cardType == Save
                 && forall j :: 0 <= j < k ==> pool[1..][j].cardType != Save;
        assert pool[k + 1] == FirstSave(pool).value;
      }
    }
  }

  /** The Save configurations each seat receives on top of the dealt cards:
      `count` copies of the pool's first Save configuration, if it has one. */
  function SaveBonus(pool: seq<CardData>, count: int): seq<CardData>
  {
    match FirstSave(pool)
    case None => []
    case Some(d) => Copies(d, count)
  }

  /** A pool with a Save configuration gives `count` copies of it (none for
      a non-positive count); a pool without gives nothing. */
  lemma SaveBonusShape(pool: seq<CardData>, count: int)
    ensures (exists k :: 0 <= k < |pool| && pool[k].cardType == Save) ==>
              |SaveBonus(pool, count)| == if count <= 0 then 0 else count
    ensures (forall k :: 0 <= k < |pool| ==> pool[k].cardType != Save) ==> SaveBonus(pool, count) == []
    ensures forall k :: 0 <= k < |SaveBonus(pool, count)| ==>
              SaveBonus(pool, count)[k].cardType == Save && SaveBonus(pool, count)[k] in pool
  {
    FirstSaveFinds(pool);
  }

  /** One more iteration of the Save loop adds one more copy. */
  lemma SaveBonusStep(pool: seq<CardData>, s: nat)
    requires FirstSave(pool).Some?
    ensures SaveBonus(pool, s + 1) == SaveBonus(pool, s) + [FirstSave(pool).value]
  {
  }

  /** What is left of `top` after n seats, in order, have each drawn up to h
      cards from its top. */
  function Undealt<T>(top: seq<T>, h: nat, n: nat): seq<T>
    decreases n
  {
    if n == 0 then top
    else
      var u := Undealt(top, h, n - 1);
      u[Min(h, |u|)..]
  }

  /** The cards seat k draws: up to h cards from what the earlier seats left. */
  function Dealt<T>(top: seq<T>, h: nat, k: nat): seq<T>
  {
    var u := Undealt(top, h, k);
    u[..Min(h, |u|)]
  }

  lemma MulStep(k: nat, h: nat)
    ensures (k + 1) * h == k * h + h
  {
  }

  /** Closed form of the deal: after n seats the first n * h cards (or all
      of them) are gone. */
  lemma UndealtIsSuffix<T>(top: seq<T>, h: nat, n: nat)
    ensures Undealt(top, h, n) == top[Min(n * h, |top|)..]
  {
    UndealtTaken(top, h, n);
    TakenIsProduct(h, n);
  }

  /** n * h, counted one seat at a time. */
  function Taken(h: nat, n: nat): nat
  {
    if n == 0 then 0 else Taken(h, n - 1) + h
  }

  lemma {:induction false} TakenIsProduct(h: nat, n: nat)
    ensures Taken(h, n) == n * h
  {
    if n > 0 {
      TakenIsProduct(h, n - 1);
      MulStep(n - 1, h);
    }
  }

  lemma {:induction false} UndealtTaken<T>(top: seq<T>, h: nat, n: nat)
    ensures Undealt(top, h, n) == top[Min(Taken(h, n), |top|)..]
  {
    if n > 0 {
      UndealtTaken(top, h, n - 1);
      DropDrop(top, Min(Taken(h, n - 1), |top|), h);
    }
  }

  /** Dropping a cards and then up to h more drops up to a + h. */
  lemma DropDrop<T>(s: seq<T>, a: nat, h: nat)
    requires a <= |s|
    ensures s[a..][Min(h, |s| - a)..] == s[Min(a + h, |s|)..]
  {
  }

  /** The deal only takes cards away. */
  lemma {:induction false} UndealtWithin<T>(top: seq<T>, h: nat, n: nat)
    ensures forall x :: x in Undealt(top, h, n) ==> x in top
    decreases n
  {
    if n > 0 {
      UndealtWithin(top, h, n - 1);
      var u := Undealt(top, h, n - 1);
      forall x | x in u[Min(h, |u|)..] ensures x in u {
        var i :| Min(h, |u|) <= i < |u| && u[i] == x;
      }
    }
  }

  /** Closed form of one seat's cards: positions k * h up to (k + 1) * h of the deck. */
  lemma DealtIsSlice<T>(top: seq<T>, h: nat, k: nat)
    ensures Dealt(top, h, k) == top[Min(k * h, |top|)..Min(k * h + h, |top|)]
  {
    var t := Taken(h, k);
    var a := Min(t, |top|);
    assert Undealt(top, h, k) == top[a..] by { UndealtTaken(top, h, k); }
    assert t == k * h by { TakenIsProduct(h, k); }
    TakeAfterDrop(top, a, h);
  }

  /** Up to h cards after the first a are the cards from a up to a + h. */
  lemma TakeAfterDrop<T>(s: seq<T>, a: nat, h: nat)
    requires a <= |s|
    ensures s[a..][..Min(h, |s| - a)] == s[a..Min(a + h, |s|)]
  {
  }

  /** A seat receives a full hand while the deck lasts. */
  lemma DealtFull<T>(top: seq<T>, h: nat, k: nat)
    requires k * h + h <= |top|
    ensures |Dealt(top, h, k)| == h
  {
    UndealtTaken(top, h, k);
    TakenIsProduct(h, k);
  }

  /** Dealing is sequential: once a seat gets a short hand, the deck is
      exhausted and every later seat gets nothing. */
  lemma {:induction false} ShortHandEndsDeal<T>(top: seq<T>, h: nat, k: nat, later: nat)
    requires |Dealt(top, h, k)| < h
    requires k < later
    ensures Undealt(top, h, later) == []
    ensures Dealt(top, h, later) == []
    decreases later
  {
    if later > k + 1 {
      ShortHandEndsDeal(top, h, k, later - 1);
    }
  }

  /** The hands dealt to seats 0..n-1, one after another, then the rest of the
      deck, are exactly the deck the deal started from. */
  lemma {:induction false} DealPartition<T>(top: seq<T>, h: nat, n: nat)
    ensures Flatten(seq(n, k requires 0 <= k < n => Dealt(top, h, k))) + Undealt(top, h, n) == top
  {
    if n > 0 {
      var hands := seq(n, k requires 0 <= k < n => Dealt(top, h, k));
      var m := n - 1;
      assert hands[..m] == seq(m, k requires 0 <= k < m => Dealt(top, h, k));
      DealPartition(top, h, m);
      var u := Undealt(top, h, m);
      assert u == Dealt(top, h, m) + Undealt(top, h, n);
    }
  }

  /** Dealing cards and then reading their configurations is dealing the configurations. */
  lemma {:induction false} DataOfUndealt(cards: seq<Card>, h: nat, n: nat)
    ensures DataOf(Undealt(cards, h, n)) == Undealt(DataOf(cards), h, n)
    ensures DataOf(Dealt(cards, h, n)) == Dealt(DataOf(cards), h, n)
  {
    if n > 0 {
      DataOfUndealt(cards, h, n - 1);
      var u := Undealt(cards, h, n - 1);
      DataOfSlice(u, Min(h, |u|), |u|);
    }
    var u := Undealt(cards, h, n);
    DataOfSlice(u, 0, Min(h, |u|));
  }
}
