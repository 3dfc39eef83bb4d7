/**
 * `HandManager`: the hands of every player (lists of card ids), the discard pile (a stack of
 * values) and the two placeholder cards, the held card and the top of the discard pile. Card
 * values live in the process-wide registry of the static `Card` struct, here the `registry`
 * object, and every change of a card's value is a change of that registry.
 */
module Hands {
  import opened Base
  import opened CardValues
  import opened Cards
  import opened Decks
  import StaticCard

  // ---------------------------------------------------------------- scoring

  /** The end-of-game points of one card: jokers -2, red kings 13, otherwise the value modulo 13. */
  function CardScore(v: CardValue): int
  {
    if v > 52 then -2 else if v == HeartsKing || v == DiamondsKing then 13 else v % 13
  }

  /** The points of a hand: the sum of its cards' points. */
  function HandScore(vs: seq<CardValue>): int
  {
    if vs == [] then 0 else HandScore(vs[..|vs| - 1]) + CardScore(vs[|vs| - 1])
  }

  /** The scoring rules stated on faces: aces to queens score their rank, red kings 13, black
      kings 0 and jokers -2. */
  lemma CardScoreByFace(v: CardValue)
    requires InSet(v)
    ensures FaceOf(v).Joker? ==> CardScore(v) == -2
    ensures FaceOf(v).Suited? && FaceOf(v).rank < 13 ==> CardScore(v) == FaceOf(v).rank
    ensures FaceOf(v).Suited? && FaceOf(v).rank == 13 ==>
      CardScore(v) == if FaceOf(v).suit in {Hearts, Diamonds} then 13 else 0
  {
    if v <= 52 {
      var q, r := (v - 1) / 13, (v - 1) % 13;
      assert v == 13 * q + r + 1;
      assert v % 13 == (r + 1) % 13;
    }
  }

  lemma {:induction false} HandScoreAppend(a: seq<CardValue>, b: seq<CardValue>)
    ensures HandScore(a + b) == HandScore(a) + HandScore(b)
    decreases |b|
  {
    if b != [] {
      var b' := b[..|b| - 1];
      assert (a + b)[..|a + b| - 1] == a + b';
      assert (a + b)[|a + b| - 1] == b[|b| - 1];
      HandScoreAppend(a, b');
      assert HandScore(b) == HandScore(b') + CardScore(b[|b| - 1]);
    } else {
      assert a + b == a;
    }
  }

  /** Taking one card out of a hand takes its points out of the hand's score. */
  lemma HandScoreRemove(b: seq<CardValue>, k: nat)
    requires k < |b|
    ensures HandScore(b) == HandScore(b[..k] + b[k + 1..]) + CardScore(b[k])
  {
    var front, x, back := b[..k], b[k], b[k + 1..];
    assert b == front + ([x] + back);
    HandScoreAppend(front, [x] + back);
    HandScoreAppend([x], back);
    HandScoreAppend(front, back);
    HandScoreOne(x);
  }

  lemma HandScoreOne(v: CardValue)
    ensures HandScore([v]) == CardScore(v)
  {
    assert [v][..0] == [];
  }

  /** The score does not depend on the order of the cards. */
  lemma {:induction false} HandScorePermutation(a: seq<CardValue>, b: seq<CardValue>)
    requires multiset(a) == multiset(b)
    ensures HandScore(a) == HandScore(b)
    decreases |a|
  {
    if a != [] {
      var x := a[|a| - 1];
      var a' := a[..|a| - 1];
      assert a == a' + [x];
      assert x in multiset(b);
      var k :| 0 <= k < |b| && b[k] == x;
      var b' := b[..k] + b[k + 1..];
      MultisetRemove(b, k);
      assert multiset(a) == multiset(a') + multiset{x};
      forall y ensures multiset(a')[y] == multiset(b')[y] {
        assert multiset(a)[y] == multiset(a')[y] + multiset{x}[y];
        assert multiset(b)[y] == multiset(b')[y] + multiset{x}[y];
      }
      assert multiset(a') == multiset(b');
      HandScorePermutation(a', b');
      HandScoreRemove(b, k);
    } else {
      assert |b| == |multiset(b)| == 0;
    }
  }

  lemma MultisetRemove(b: seq<CardValue>, k: nat)
    requires k < |b|
    ensures multiset(b) == multiset(b[..k] + b[k + 1..]) + multiset{b[k]}
  {
    assert b == b[..k] + [b[k]] + b[k + 1..];
  }

  /** The points of the values 1..n, summed from the top down. */
  function SpanScore(n: nat): int
    requires n < 0x100
  {
    if n == 0 then 0 else SpanScore(n - 1) + CardScore(n)
  }

  lemma {:induction false} SpanScoreIs(n: nat)
    requires n < 0x100
    ensures HandScore(Span(1, n + 1)) == SpanScore(n)
  {
    if n > 0 {
      SpanScoreIs(n - 1);
      var s := Span(1, n + 1);
      assert s[..n - 1] == Span(1, n);
    }
  }

  /** A hand holding one whole standard set, in any order, scores 334. */
  lemma FullSetScore(s: seq<CardValue>)
    requires multiset(s) == Sets(1)
    ensures HandScore(s) == 334
  {
    assert Sets(1) == multiset(OneSet());
    HandScorePermutation(s, OneSet());
    SpanScoreIs(SetSize);
    SpanScoreTotal();
  }

  /** The arithmetic of the standard set: four suits of 1 + .. + 12, two red kings, two jokers. */
  lemma SpanScoreTotal()
    ensures SpanScore(SetSize) == 334
  {
    SuitScore(0);
    SuitScore(1);
    SuitScore(2);
    SuitScore(3);
    assert SpanScore(SetSize) == SpanScore(52) - 4;
  }

  /** Suit b adds 1 + .. + 12 for ace to queen, then its king. */
  lemma SuitScore(b: nat)
    requires b < 4
    ensures SpanScore(13 * b + 13) == SpanScore(13 * b) + 78 + (if b == 1 || b == 2 then 13 else 0)
  {
    SuitPrefix(b, 12);
    assert Tri(12) == 78;
  }

  /** 1 + 2 + .. + r. */
  function Tri(r: nat): nat
  {
    if r == 0 then 0 else Tri(r - 1) + r
  }

  lemma {:induction false} SuitPrefix(b: nat, r: nat)
    requires b < 4 && r <= 12
    ensures SpanScore(13 * b + r) == SpanScore(13 * b) + Tri(r)
  {
    if r > 0 {
      SuitPrefix(b, r - 1);
      RankScore(b, r);
    }
  }

  /** Below the king, a suited card scores its rank. */
  lemma RankScore(b: nat, r: nat)
    requires b < 4 && 0 < r <= 12
    ensures CardScore(13 * b + r) == r
  {
    assert (13 * b + r) % 13 == r by {
      if b == 0 {} else if b == 1 {} else if b == 2 {} else {}
    }
  }

  // ---------------------------------------------------------------- hand helpers

  /** `hand.FirstOrDefault(card => card.Id == id)`: the card itself, or `default(Card)`,
      whose id is 0, when the hand does not hold it. */
  function FirstOrDefault(hand: seq<CardId>, id: CardId): (r: CardId)
    ensures id in hand ==> r == id
    ensures id !in hand ==> r == 0
  {
    if id in hand then id else 0
  }

  /** The position of the first occurrence of `id`. */
  function FirstIndex(hand: seq<CardId>, id: CardId): (k: nat)
    requires id in hand
    ensures k < |hand| && hand[k] == id
    ensures forall j :: 0 <= j < k ==> hand[j] != id
  {
    if hand[0] == id then 0 else FirstIndex(hand[1..], id) + 1
  }

  /** `List.Remove`: drops the first occurrence of `id`; the cards before it keep their places
      and the cards after it move up by one. */
  function RemoveFirst(hand: seq<CardId>, id: CardId): (r: seq<CardId>)
    ensures id in hand ==>
      && |r| == |hand| - 1
      && (forall j :: 0 <= j < FirstIndex(hand, id) ==> r[j] == hand[j])
      && (forall j :: FirstIndex(hand, id) <= j < |r| ==> r[j] == hand[j + 1])
    ensures id !in hand ==> r == hand
  {
    if id in hand then hand[..FirstIndex(hand, id)] + hand[FirstIndex(hand, id) + 1..] else hand
  }

  /** The first hand, in player order, that holds the card. */
  function FirstHolder(hands: seq<seq<CardId>>, id: CardId): (r: Option<nat>)
    ensures r.Some? ==>
      (r.value < |hands| && id in hands[r.value] && forall q :: 0 <= q < r.value ==> id !in hands[q])
    ensures r.None? <==> forall q :: 0 <= q < |hands| ==> id !in hands[q]
  {
    if hands == [] then Option.None
    else if id in hands[0] then Some(0)
    else
      var rest := FirstHolder(hands[1..], id);
      assert forall q :: 1 <= q < |hands| ==> hands[q] == hands[1..][q - 1];
      if rest.None? then Option.None else Some(rest.value + 1)
  }

  /** The first holder is unique. */
  lemma FirstHolderIs(hands: seq<seq<CardId>>, id: CardId, found: Option<nat>)
    requires found.None? ==> forall q :: 0 <= q < |hands| ==> id !in hands[q]
    requires found.Some? ==>
      (found.value < |hands| && id in hands[found.value] && forall q :: 0 <= q < found.value ==> id !in hands[q])
    ensures found == FirstHolder(hands, id)
  {
  }

  /** No card id occurs twice in the hands, neither in one hand nor in two. */
  ghost predicate Distinct(hands: seq<seq<CardId>>)
  {
    forall p, i, q, j ::
      (0 <= p < |hands| && 0 <= i < |hands[p]| && 0 <= q < |hands| && 0 <= j < |hands[q]| &&
       hands[p][i] == hands[q][j]) ==> p == q && i == j
  }

  lemma DistinctRemove(hands: seq<seq<CardId>>, p: nat, k: nat)
    requires Distinct(hands) && p < |hands| && k < |hands[p]|
    ensures Distinct(hands[p := hands[p][..k] + hands[p][k + 1..]])
  {
    var h := hands[p];
    var hs := hands[p := h[..k] + h[k + 1..]];
    forall a, i, b, j |
      0 <= a < |hs| && 0 <= i < |hs[a]| && 0 <= b < |hs| && 0 <= j < |hs[b]| && hs[a][i] == hs[b][j]
      ensures a == b && i == j
    {
      var i' := if a == p && i >= k then i + 1 else i;
      var j' := if b == p && j >= k then j + 1 else j;
      assert hs[a][i] == hands[a][i'];
      assert hs[b][j] == hands[b][j'];
    }
  }

  lemma DistinctAppend(hands: seq<seq<CardId>>, p: nat, id: CardId)
    requires Distinct(hands) && p < |hands|
    requires forall q :: 0 <= q < |hands| ==> id !in hands[q]
    ensures Distinct(hands[p := hands[p] + [id]])
  {
    var hs := hands[p := hands[p] + [id]];
    forall a, i, b, j |
      0 <= a < |hs| && 0 <= i < |hs[a]| && 0 <= b < |hs| && 0 <= j < |hs[b]| && hs[a][i] == hs[b][j]
      ensures a == b && i == j
    {
      if !(a == p && i == |hands[p]|) && !(b == p && j == |hands[p]|) {
        assert hs[a][i] == hands[a][i] && hs[b][j] == hands[b][j];
      }
    }
  }

  /** The ids `lo .. lo + n - 1` are not yet registered. */
  ghost predicate Unused(registry: Registry, lo: int, n: int)
    reads registry
  {
    forall id :: lo <= id < lo + n ==> id !in registry.numbers
  }

  /** The registry and the deck after `n` cards of a deal that started from `cards` and the
      registry contents `before`: the new ids `first .. first + n - 1` hold the values popped from
      the top of the deck in order, and everything else is as it was. */
  ghost predicate Dealt(registry: Registry, deck: Deck, first: int, cards: seq<CardValue>,
                        before: map<CardId, Option<CardValue>>, placeholders: seq<CardId>, n: nat)
    reads registry, deck
  {
    && registry.Valid()
    && n <= |cards|
    && registry.nextId == first + n
    && registry.placeholders == placeholders
    && deck.cards == cards[..|cards| - n]
    && (forall id :: id in registry.numbers <==> id in before || first <= id < first + n)
    && (forall id :: id in before ==> registry.numbers[id] == before[id])
    && (forall id :: first <= id < first + n ==> registry.numbers[id] == Some(cards[|cards| - 1 - (id - first)]))
  }

  /** `new Card(deck.Draw())`: the next id takes the value on top of the deck. */
  method DealOne(registry: Registry, deck: Deck, ghost first: int, ghost cards: seq<CardValue>,
                 ghost before: map<CardId, Option<CardValue>>, ghost placeholders: seq<CardId>, ghost n: nat)
    returns (id: CardId, ghost next: nat)
    requires Dealt(registry, deck, first, cards, before, placeholders, n)
    requires n < |cards| && first + n + 1 < 0x1_0000 && first + n !in before
    modifies registry, deck
    ensures Dealt(registry, deck, first, cards, before, placeholders, next)
    ensures next == n + 1 && id == first + n
  {
    var drawn := deck.Draw();
    var card := StaticCard.NewCard(registry, drawn.value);
    id := card.value.id;
    next := n + 1;
    assert cards[..|cards| - n][..|cards| - n - 1] == cards[..|cards| - next];
  }

  /** The inner deal loop: `count` cards, each a new card holding the next value drawn. Ids are
      consecutive from the registry's counter and values come off the top of the deck. */
  method DealHand(registry: Registry, deck: Deck, count: nat, ghost first: int, ghost cards: seq<CardValue>,
                  ghost before: map<CardId, Option<CardValue>>, ghost placeholders: seq<CardId>, ghost n: nat)
    returns (hand: seq<CardId>, ghost next: nat)
    requires Dealt(registry, deck, first, cards, before, placeholders, n)
    requires n + count <= |cards| && first + n + count < 0x1_0000
    requires forall id :: first + n <= id < first + n + count ==> id !in before
    modifies registry, deck
    ensures Dealt(registry, deck, first, cards, before, placeholders, next)
    ensures next == n + count && |hand| == count && Block(hand, first + n)
  {
    hand := [];
    next := n;
    var j := 0;
    while j < count
      invariant j <= count && next == n + j && |hand| == j
      invariant Dealt(registry, deck, first, cards, before, placeholders, next)
      invariant Block(hand, first + n)
    {
      var id, dealt := DealOne(registry, deck, first, cards, before, placeholders, next);
      hand := hand + [id];
      next := dealt;
      j := j + 1;
    }
  }

  /** The hand holds the consecutive ids lo, lo + 1, .. */
  ghost predicate Block(hand: seq<CardId>, lo: int)
  {
    forall i :: 0 <= i < |hand| ==> hand[i] == lo + i
  }

  /** The outer deal loop: `players` hands of `s` cards each, dealt player by player. Card
      `first + k` gets the k-th value from the top of the deck. */
  method DealAll(registry: Registry, deck: Deck, players: nat, s: nat, ghost first: int, ghost cards: seq<CardValue>,
                 ghost before: map<CardId, Option<CardValue>>, ghost placeholders: seq<CardId>)
    returns (dealt: seq<seq<CardId>>)
    requires Dealt(registry, deck, first, cards, before, placeholders, 0)
    requires players * s <= |cards| && first + players * s < 0x1_0000
    requires forall id :: first <= id < first + players * s ==> id !in before
    modifies registry, deck
    ensures Dealt(registry, deck, first, cards, before, placeholders, players * s)
    ensures |dealt| == players
    ensures forall p :: 0 <= p < players ==> |dealt[p]| == s && Block(dealt[p], first + p * s)
  {
    dealt := [];
    var p := 0;
    ghost var n := 0;
    while p < players
      invariant 0 <= p <= players && n == p * s && n <= players * s
      invariant Dealt(registry, deck, first, cards, before, placeholders, n)
      invariant |dealt| == p
      invariant forall q :: 0 <= q < p ==> |dealt[q]| == s && Block(dealt[q], first + q * s)
    {
      DealBound(p, players, s);
      var hand, next := DealHand(registry, deck, s, first, cards, before, placeholders, n);
      dealt := dealt + [hand];
      p := p + 1;
      n := next;
    }
  }

  /** A deal that followed the two placeholders, seen from before the placeholders. */
  lemma DealtAfterPlaceholders(registry: Registry, deck: Deck, base: int, top: int, cards: seq<CardValue>,
                               start: map<CardId, Option<CardValue>>, placeholders: seq<CardId>, n: nat)
    requires 0 <= base && top == base + 1 < 0x1_0000
    requires Dealt(registry, deck, base + 2, cards, start[base := Option.None][top := Option.None], placeholders, n)
    requires base !in start && top !in start
    ensures forall id :: id in registry.numbers <==> id in start || base <= id < registry.nextId
    ensures forall id :: id in start ==> registry.numbers[id] == start[id]
    ensures registry.numbers[base] == Option.None && registry.numbers[top] == Option.None
    ensures forall id :: top < id < registry.nextId ==>
      registry.numbers[id] == Some(cards[|cards| - 1 - (id - (top + 1))])
  {
  }

  /** The allocations of the `HandManager` constructor: the held placeholder, the discard
      placeholder, then `startingCards` new cards for each player in turn. */
  method DealTable(registry: Registry, deck: Deck, playerCount: nat, startingCards: nat)
    returns (held: CardId, top: CardId, dealt: seq<seq<CardId>>)
    requires registry.Valid()
    requires playerCount * startingCards <= |deck.cards|
    requires registry.nextId + 2 + playerCount * startingCards < 0x1_0000
    requires Unused(registry, registry.nextId, 2 + playerCount * startingCards)
    modifies registry, deck
    ensures registry.Valid()
    ensures held == old(registry.nextId) && top == old(registry.nextId) + 1
    ensures held in registry.numbers && top in registry.numbers
    ensures registry.numbers[held] == Option.None && registry.numbers[top] == Option.None
    ensures registry.placeholders == old(registry.placeholders) + [held, top]
    ensures registry.nextId == old(registry.nextId) + 2 + playerCount * startingCards
    ensures |dealt| == playerCount
    ensures forall p :: 0 <= p < |dealt| ==>
      |dealt[p]| == startingCards && Block(dealt[p], top + 1 + p * startingCards)
    ensures forall id :: id in registry.numbers <==>
      id in old(registry.numbers) || old(registry.nextId) <= id < registry.nextId
    ensures forall id :: id in old(registry.numbers) ==> registry.numbers[id] == old(registry.numbers)[id]
    ensures deck.cards == old(deck.cards)[..|old(deck.cards)| - playerCount * startingCards]
    ensures forall id :: top < id < registry.nextId ==>
      registry.numbers[id] == Some(old(deck.cards)[|old(deck.cards)| - 1 - (id - (top + 1))])
  {
    var base := registry.nextId;
    ghost var start, cards := registry.numbers, deck.cards;
    var h := StaticCard.AddPlaceholder(registry);
    var t := StaticCard.AddPlaceholder(registry);
    held, top := h.value, t.value;
    assert cards[..|cards| - 0] == cards;
    ghost var n := playerCount * startingCards;
    dealt := DealAll(registry, deck, playerCount, startingCards, base + 2, cards, registry.numbers, registry.placeholders);
    assert deck.cards == cards[..|cards| - n];
    DealtAfterPlaceholders(registry, deck, base, top, cards, start, registry.placeholders, n);
  }

  // ---------------------------------------------------------------- the hand manager

  class HandManager {
    /** The registry of the static `Card` struct that every card id here refers to. */
    const registry: Registry
    /** `Deck`. */
    const deck: Deck
    /** `_playerHands`: the keys are the player ids 0 .. playerCount - 1, so player p's hand is
        `hands[p]`; the dictionary is read-only, the lists inside it are not. */
    var hands: seq<seq<CardId>>
    /** `_discardBuffer`: a stack whose top is the last element. */
    var discard: seq<CardValue>
    /** `HeldCardId`: the placeholder for the drawn card. */
    const heldCardId: CardId
    /** `TopDiscardCardId`: the placeholder for the top of the discard pile. */
    const topDiscardCardId: CardId
    /** `InitialisationInfo`. */
    const playerCount: Byte
    const startingCards: int
    const deckSize: int

    /** Both placeholders are registered and distinct; every card in a hand is registered with a
        value and is not a placeholder; no card is in two places. */
    ghost predicate Valid()
      reads this, registry
    {
      && registry.Valid()
      && |hands| == playerCount > 0
      && heldCardId != topDiscardCardId
      && heldCardId in registry.placeholders && topDiscardCardId in registry.placeholders
      && (forall p :: 0 <= p < |hands| ==> HandCards(hands[p]))
      && Distinct(hands)
    }

    /** A card that may sit in a hand: registered with a value, and no placeholder. */
    ghost predicate HandCard(id: CardId)
      reads this, registry
    {
      id in registry.numbers && registry.numbers[id].Some? && id != heldCardId && id != topDiscardCardId
    }

    /** Every card of the hand may sit in a hand. */
    ghost predicate HandCards(hand: seq<CardId>)
      reads this, registry
    {
      forall id :: id in hand ==> HandCard(id)
    }

    /** Some hand holds the card. */
    ghost predicate InSomeHand(id: CardId)
      reads this
    {
      exists p :: 0 <= p < |hands| && id in hands[p]
    }

    /** The values of a hand's cards, in hand order. */
    function HandValues(hand: seq<CardId>): (vs: seq<CardValue>)
      requires HandCards(hand)
      reads this, registry
      ensures |vs| == |hand|
      ensures forall i :: 0 <= i < |hand| ==> HandCard(hand[i]) && registry.numbers[hand[i]] == Some(vs[i])
    {
      if hand == [] then []
      else
        assert forall id :: id in hand[..|hand| - 1] ==> id in hand;
        assert HandCard(hand[|hand| - 1]);
        HandValues(hand[..|hand| - 1]) + [registry.numbers[hand[|hand| - 1]].value]
    }

    /** `new HandManager(playerCount, startingCards, deck)`: allocates the held placeholder, then
        the discard placeholder, then deals `startingCards` new cards to each player in turn. The
        ids of the dealt cards therefore follow the two placeholders without gaps, and the deck
        loses its top `playerCount * startingCards` values. */
    constructor (registry: Registry, playerCount: Byte, startingCards: int, deck: Deck)
      requires registry.Valid()
      requires playerCount > 0 && startingCards > 0
      requires playerCount * startingCards <= deck.Remaining()
      requires registry.nextId + 2 + playerCount * startingCards < 0x1_0000
      requires Unused(registry, registry.nextId, 2 + playerCount * startingCards)
      modifies registry, deck
      ensures Valid()
      ensures this.registry == registry && this.deck == deck
      ensures this.playerCount == playerCount && this.startingCards == startingCards
      ensures deckSize == deck.standardSizeMultiple
      ensures heldCardId == old(registry.nextId) && topDiscardCardId == old(registry.nextId) + 1
      ensures registry.numbers[heldCardId] == Option.None && registry.numbers[topDiscardCardId] == Option.None
      ensures registry.placeholders == old(registry.placeholders) + [heldCardId, topDiscardCardId]
      ensures registry.nextId == old(registry.nextId) + 2 + playerCount * startingCards
      ensures discard == []
      ensures forall p :: 0 <= p < |hands| ==>
        |hands[p]| == startingCards && Block(hands[p], topDiscardCardId + 1 + p * startingCards)
      ensures forall id :: id in registry.numbers <==>
        id in old(registry.numbers) || old(registry.nextId) <= id < registry.nextId
      ensures forall id :: id in old(registry.numbers) ==> registry.numbers[id] == old(registry.numbers)[id]
      ensures deck.cards == old(deck.cards)[..|old(deck.cards)| - playerCount * startingCards]
      ensures forall id :: topDiscardCardId < id < registry.nextId ==>
        registry.numbers[id] == Some(old(deck.cards)[|old(deck.cards)| - 1 - (id - (topDiscardCardId + 1))])
    {
      var held, top, dealt := DealTable(registry, deck, playerCount, startingCards);
      this.registry := registry;
      this.deck := deck;
      this.playerCount := playerCount;
      this.startingCards := startingCards;
      deckSize := deck.standardSizeMultiple;
      heldCardId := held;
      topDiscardCardId := top;
      hands := dealt;
      discard := [];
      new;
      DealtHands(hands, top + 1, startingCards);
      assert forall p, id :: 0 <= p < |hands| && id in hands[p] ==> HandCard(id);
    }

    /** `ToDiscard`: pushes the value and makes it the top-of-discard placeholder's value. */
    method ToDiscard(cardValue: CardValue)
      requires Valid()
      modifies this, registry
      ensures Valid()
      ensures discard == old(discard) + [cardValue]
      ensures registry.numbers == old(registry.numbers)[topDiscardCardId := Some(cardValue)]
      ensures hands == old(hands)
      ensures registry.nextId == old(registry.nextId) && registry.placeholders == old(registry.placeholders)
    {
      discard := discard + [cardValue];
      StaticCard.ChangePlaceholderNumber(registry, topDiscardCardId, Some(discard[|discard| - 1]));
    }

    /** `DrawCard`: the held placeholder takes the value popped from the deck; an empty deck
        throws InvalidOperationException and nothing changes. */
    method DrawCard() returns (r: Result<()>)
      requires Valid()
      modifies registry, deck
      ensures Valid()
      ensures old(deck.cards) == [] ==> r == Err(InvalidOperation) && unchanged(registry) && deck.cards == []
      ensures old(deck.cards) != [] ==>
        && r == Ok(())
        && registry.numbers == old(registry.numbers)[heldCardId := Some(old(deck.cards)[|old(deck.cards)| - 1])]
        && deck.cards == old(deck.cards)[..|old(deck.cards)| - 1]
      ensures registry.nextId == old(registry.nextId) && registry.placeholders == old(registry.placeholders)
    {
      var drawn := deck.Draw();
      if drawn.Err? {
        return Err(InvalidOperation);
      }
      StaticCard.ChangePlaceholderNumber(registry, heldCardId, Some(drawn.value));
      r := Ok(());
    }

    /** `DiscardHeldCard`: asserts a card is held, pushes its value to the discard pile (which
        updates the top placeholder) and empties the held placeholder. */
    method DiscardHeldCard()
      requires Valid()
      requires registry.numbers[heldCardId].Some?
      modifies this, registry
      ensures Valid()
      ensures discard == old(discard) + [old(registry.numbers[heldCardId]).value]
      ensures registry.numbers == old(registry.numbers)
        [topDiscardCardId := old(registry.numbers[heldCardId])][heldCardId := Option.None]
      ensures hands == old(hands)
      ensures registry.nextId == old(registry.nextId) && registry.placeholders == old(registry.placeholders)
    {
      var cardValue := StaticCard.GetNumber(registry, heldCardId);
      ToDiscard(cardValue.value.value);
      StaticCard.ChangePlaceholderNumber(registry, heldCardId, Option.None);
    }

    /** `PlayerIds`: the dictionary's keys in insertion order, 0 .. playerCount - 1. */
    function PlayerIds(): (r: seq<Byte>)
      requires Valid()
      reads this, registry, deck
      ensures |r| == |hands|
      ensures forall i :: 0 <= i < |r| ==> r[i] == i
    {
      Span(0, |hands|)
    }

    /** `GetCardsInHand`: the player's hand, or ArgumentException for an unknown player. */
    function GetCardsInHand(playerId: Byte): (r: Result<seq<CardId>>)
      reads this
      ensures r.Ok? <==> playerId < |hands|
      ensures r.Ok? ==> r.value == hands[playerId]
    {
      if playerId < |hands| then Ok(hands[playerId]) else Err(Argument)
    }

    /** `Swap`, path 1: both ids must be found in some hand (else InvalidOperationException);
        then the two cards exchange their values. */
    method SwapNoPlaceholders(cardOneId: CardId, cardTwoId: CardId) returns (r: Result<()>)
      requires Valid()
      modifies registry
      ensures Valid()
      ensures !(InSomeHand(cardOneId) && InSomeHand(cardTwoId)) ==> r == Err(InvalidOperation) && unchanged(registry)
      ensures InSomeHand(cardOneId) && InSomeHand(cardTwoId) ==>
        && r == Ok(())
        && registry.numbers == old(registry.numbers)
           [cardOneId := old(registry.numbers[cardTwoId])][cardTwoId := old(registry.numbers[cardOneId])]
      ensures registry.nextId == old(registry.nextId) && registry.placeholders == old(registry.placeholders)
    {
      var found1, found2 := false, false;
      for p := 0 to |hands|
        invariant found1 <==> exists q :: 0 <= q < p && cardOneId in hands[q]
        invariant found2 <==> exists q :: 0 <= q < p && cardTwoId in hands[q]
      {
        if cardOneId in hands[p] {
          found1 := true;
        }
        if cardTwoId in hands[p] {
          found2 := true;
        }
      }
      if !found1 || !found2 {
        return Err(InvalidOperation);
      }
      var value1 := StaticCard.GetNumber(registry, cardOneId).value.value;
      var value2 := StaticCard.GetNumber(registry, cardTwoId).value.value;
      StaticCard.Card(cardOneId).ChangeNumber(registry, value2);
      StaticCard.Card(cardTwoId).ChangeNumber(registry, value1);
      r := Ok(());
    }

    /** `Swap`, path 4: the card searched in the first hand only, `default(Card)` (id 0) when it
        is not there. A missing held value, or an unregistered id 0, throws
        InvalidOperationException; otherwise the held placeholder takes the card's value and the
        card takes the held value. */
    method SwapWithHeldCard(cardId: CardId) returns (r: Result<()>)
      requires Valid()
      modifies registry
      ensures Valid()
      ensures var card := FirstOrDefault(old(hands[0]), cardId);
        if old(registry.numbers[heldCardId]).None? || card !in old(registry.numbers) then
          r == Err(InvalidOperation) && unchanged(registry)
        else
          && r == Ok(())
          && registry.numbers == old(registry.numbers)
             [heldCardId := old(registry.numbers[card])][card := old(registry.numbers[heldCardId])]
      ensures registry.nextId == old(registry.nextId) && registry.placeholders == old(registry.placeholders)
    {
      // The search loop breaks after the first hand, since `FirstOrDefault` never yields null.
      var card := FirstOrDefault(hands[0], cardId);
      var held := StaticCard.GetNumber(registry, heldCardId);
      if held.value.None? {
        return Err(InvalidOperation);
      }
      var heldCardVal := held.value.value;
      var cardNumber := StaticCard.Card(card).Number(registry);
      if cardNumber.Err? {
        return Err(InvalidOperation);
      }
      StaticCard.ChangePlaceholderNumber(registry, heldCardId, cardNumber.value);
      StaticCard.Card(card).ChangeNumber(registry, heldCardVal);
      r := Ok(());
    }

    /** `Swap`, path 3: the card searched in every hand with no break, so the last hand's
        `FirstOrDefault` decides (id 0 when the last hand lacks it). An empty discard pile, or a
        card without a value, throws InvalidOperationException. Otherwise the card's value is
        pushed to the discard pile and written back into the card, whose value is unchanged. */
    method SwapWithDiscard(cardId: CardId) returns (r: Result<()>)
      requires Valid()
      modifies this, registry
      ensures Valid()
      ensures hands == old(hands)
      ensures var card := FirstOrDefault(old(hands[|hands| - 1]), cardId);
        if old(registry.numbers[topDiscardCardId]).None? || card !in old(registry.numbers)
           || old(registry.numbers[card]).None? then
          r == Err(InvalidOperation) && unchanged(this, registry)
        else
          && r == Ok(())
          && discard == old(discard) + [old(registry.numbers[card]).value]
          && registry.numbers == old(registry.numbers)
             [topDiscardCardId := old(registry.numbers[card])][card := old(registry.numbers[card])]
      ensures registry.nextId == old(registry.nextId) && registry.placeholders == old(registry.placeholders)
    {
      var card: CardId := 0;
      for p := 0 to |hands|
        invariant p > 0 ==> card == FirstOrDefault(hands[p - 1], cardId)
      {
        card := FirstOrDefault(hands[p], cardId);
      }
      var top := StaticCard.GetNumber(registry, topDiscardCardId);
      if top.value.None? {
        return Err(InvalidOperation);
      }
      var cardNumber := StaticCard.Card(card).Number(registry);
      if cardNumber.Err? || cardNumber.value.None? {
        return Err(InvalidOperation);
      }
      ToDiscard(cardNumber.value.value);
      var newTop := StaticCard.GetNumber(registry, topDiscardCardId);
      StaticCard.Card(card).ChangeNumber(registry, newTop.value.value);
      r := Ok(());
    }

    /** `Swap`, path 2: asserts a card is held, empties the held placeholder and pushes its value
        onto the discard stack. The top-of-discard placeholder is not refreshed. */
    method SwapBothPlaceholders()
      requires Valid()
      requires registry.numbers[heldCardId].Some?
      modifies this, registry
      ensures Valid()
      ensures hands == old(hands)
      ensures discard == old(discard) + [old(registry.numbers[heldCardId]).value]
      ensures registry.numbers == old(registry.numbers)[heldCardId := Option.None]
      ensures registry.nextId == old(registry.nextId) && registry.placeholders == old(registry.placeholders)
    {
      var valueToDiscard := StaticCard.GetNumber(registry, heldCardId).value;
      StaticCard.ChangePlaceholderNumber(registry, heldCardId, Option.None);
      discard := discard + [valueToDiscard.value];
    }

    /** Which path of `Swap` a pair of ids takes. */
    function SwapPath(cardOneId: CardId, cardTwoId: CardId): (path: nat)
      reads this
      ensures 1 <= path <= 4
      ensures path == 1 <==> {cardOneId, cardTwoId} !! {heldCardId, topDiscardCardId}
      ensures path == 2 <==> topDiscardCardId in {cardOneId, cardTwoId} && heldCardId in {cardOneId, cardTwoId}
      ensures path == 3 <==> topDiscardCardId in {cardOneId, cardTwoId} && heldCardId !in {cardOneId, cardTwoId}
      ensures path == 4 <==> topDiscardCardId !in {cardOneId, cardTwoId} && heldCardId in {cardOneId, cardTwoId}
    {
      if cardOneId != heldCardId && cardOneId != topDiscardCardId
         && cardTwoId != heldCardId && cardTwoId != topDiscardCardId then 1
      else if (cardOneId == topDiscardCardId || cardTwoId == topDiscardCardId)
         && (cardOneId == heldCardId || cardTwoId == heldCardId) then 2
      else if cardOneId == topDiscardCardId || cardTwoId == topDiscardCardId then 3
      else 4
    }

    /** The id of a pair that is not `placeholder` (the second when the first is it). */
    function Other(cardOneId: CardId, cardTwoId: CardId, placeholder: CardId): CardId
    {
      if cardOneId == placeholder then cardTwoId else cardOneId
    }

    /** What `Swap` does, as a value: the exception it raises, or the discard pile and the card
        values it leaves. Path 1 exchanges two hand cards found in some hand; path 2 pushes the
        held value onto the discard pile and empties the held card, and fails the hand manager's
        assertion when nothing is held; path 3 pushes the value of the card found in the last
        hand; path 4 exchanges the held value with the card found in the first hand (id 0 when
        it is not there). */
    ghost function SwapOutcome(cardOneId: CardId, cardTwoId: CardId): Result<(seq<CardValue>, map<CardId, Option<CardValue>>)>
      requires Valid()
      reads this, registry
    {
      var numbers: map<CardId, Option<CardValue>> := registry.numbers;
      var path := SwapPath(cardOneId, cardTwoId);
      if path == 1 then
        if InSomeHand(cardOneId) && InSomeHand(cardTwoId) then
          var exchanged: map<CardId, Option<CardValue>> :=
            numbers[cardOneId := numbers[cardTwoId]][cardTwoId := numbers[cardOneId]];
          Ok((discard, exchanged))
        else Err(InvalidOperation)
      else if path == 2 then
        if numbers[heldCardId].None? then Err(AssertionFailed)
        else
          var emptied: map<CardId, Option<CardValue>> := numbers[heldCardId := Option.None];
          Ok((discard + [numbers[heldCardId].value], emptied))
      else if path == 3 then
        var card := FirstOrDefault(hands[|hands| - 1], Other(cardOneId, cardTwoId, topDiscardCardId));
        if numbers[topDiscardCardId].None? || card !in numbers || numbers[card].None? then Err(InvalidOperation)
        else
          var pushed: map<CardId, Option<CardValue>> := numbers[topDiscardCardId := numbers[card]][card := numbers[card]];
          Ok((discard + [numbers[card].value], pushed))
      else
        var card := FirstOrDefault(hands[0], Other(cardOneId, cardTwoId, heldCardId));
        if numbers[heldCardId].None? || card !in numbers then Err(InvalidOperation)
        else
          var exchanged: map<CardId, Option<CardValue>> :=
            numbers[heldCardId := numbers[card]][card := numbers[heldCardId]];
          Ok((discard, exchanged))
    }

    /** `Swap`: dispatches on which of the two ids are placeholders. The four paths cover every
        pair, so the final InvalidOperationException of the source cannot be reached. */
    method Swap(cardOneId: CardId, cardTwoId: CardId) returns (r: Result<()>)
      requires Valid()
      requires SwapPath(cardOneId, cardTwoId) == 2 ==> registry.numbers[heldCardId].Some?
      modifies this, registry
      ensures Valid()
      ensures hands == old(hands)
      ensures registry.nextId == old(registry.nextId) && registry.placeholders == old(registry.placeholders)
      ensures var o := old(SwapOutcome(cardOneId, cardTwoId));
        if o.Err? then r == Err(o.error) && unchanged(this, registry)
        else r == Ok(()) && discard == o.value.0 && registry.numbers == o.value.1
    {
      var path := SwapPath(cardOneId, cardTwoId);
      if path == 1 {
        r := SwapNoPlaceholders(cardOneId, cardTwoId);
      } else if path == 2 {
        SwapBothPlaceholders();
        r := Ok(());
      } else if path == 3 {
        r := SwapWithDiscard(Other(cardOneId, cardTwoId, topDiscardCardId));
      } else {
        r := SwapWithHeldCard(Other(cardOneId, cardTwoId, heldCardId));
      }
    }

    /** `Scramble`: an unknown player throws ArgumentException. Otherwise the hand's values are
        put in a random order (any permutation) and written back card by card: the ids and their
        order stay, the multiset of values stays, and no other card changes. */
    method Scramble(playerId: Byte) returns (r: Result<()>)
      requires Valid()
      modifies registry
      ensures Valid()
      ensures playerId >= |hands| ==> r == Err(Argument) && unchanged(registry)
      ensures playerId < |hands| ==>
        && r == Ok(())
        && multiset(HandValues(hands[playerId])) == old(multiset(HandValues(hands[playerId])))
        && (forall id :: id in registry.numbers <==> id in old(registry.numbers))
        && (forall id :: id in old(registry.numbers) && id !in hands[playerId] ==>
              registry.numbers[id] == old(registry.numbers)[id])
      ensures registry.nextId == old(registry.nextId) && registry.placeholders == old(registry.placeholders)
    {
      if playerId >= |hands| {
        return Err(Argument);
      }
      var hand := hands[playerId];
      var cardValues := HandValues(hand);
      var shuffled: seq<CardValue> :| multiset(shuffled) == multiset(cardValues);
      assert |shuffled| == |hand| by {
        assert |multiset(shuffled)| == |multiset(cardValues)|;
      }
      forall i, j | 0 <= i < j < |hand| ensures hand[i] != hand[j] {
        assert hands[playerId][i] == hand[i] && hands[playerId][j] == hand[j];
      }
      WriteBack(hand, shuffled);
      HandValuesAre(hand, shuffled);
      r := Ok(());
    }

    /** The write-back loop of `Scramble`: card k of the hand takes value k. */
    method WriteBack(hand: seq<CardId>, values: seq<CardValue>)
      requires registry.Valid() && |values| == |hand|
      requires forall k :: 0 <= k < |hand| ==> hand[k] in registry.numbers
      requires forall i, j :: 0 <= i < j < |hand| ==> hand[i] != hand[j]
      modifies registry
      ensures registry.Valid()
      ensures registry.nextId == old(registry.nextId) && registry.placeholders == old(registry.placeholders)
      ensures forall id :: id in registry.numbers <==> id in old(registry.numbers)
      ensures forall k :: 0 <= k < |hand| ==> registry.numbers[hand[k]] == Some(values[k])
      ensures forall id :: id in old(registry.numbers) && id !in hand ==> registry.numbers[id] == old(registry.numbers)[id]
    {
      for i := 0 to |hand|
        invariant registry.Valid()
        invariant registry.nextId == old(registry.nextId) && registry.placeholders == old(registry.placeholders)
        invariant forall id :: id in registry.numbers <==> id in old(registry.numbers)
        invariant forall k :: 0 <= k < i ==> registry.numbers[hand[k]] == Some(values[k])
        invariant forall id :: id in old(registry.numbers) && id !in hand[..i] ==>
          registry.numbers[id] == old(registry.numbers)[id]
      {
        assert hand[..i + 1] == hand[..i] + [hand[i]];
        StaticCard.Card(hand[i]).ChangeNumber(registry, values[i]);
      }
      assert hand[..|hand|] == hand;
    }

    lemma {:induction false} HandValuesAre(hand: seq<CardId>, vs: seq<CardValue>)
      requires |hand| == |vs| && HandCards(hand)
      requires forall k :: 0 <= k < |hand| ==> hand[k] in registry.numbers && registry.numbers[hand[k]] == Some(vs[k])
      ensures HandValues(hand) == vs
    {
      if hand != [] {
        assert forall id :: id in hand[..|hand| - 1] ==> id in hand;
        HandValuesAre(hand[..|hand| - 1], vs[..|vs| - 1]);
      }
    }

    /** The search loop of `QuickPlace`: the first hand, in player order, holding the card. */
    method FindHolder(cardId: CardId) returns (found: Option<nat>)
      ensures found == FirstHolder(hands, cardId)
    {
      found := Option.None;
      var p := 0;
      while p < |hands|
        invariant 0 <= p <= |hands|
        invariant forall q :: 0 <= q < p ==> cardId !in hands[q]
      {
        if cardId in hands[p] {
          found := Some(p);
          break;
        }
        p := p + 1;
      }
      FirstHolderIs(hands, cardId, found);
    }

    /** `hand.Remove(card)` on player h's hand: the card leaves the hands altogether. */
    method RemoveCard(h: nat, cardId: CardId)
      requires Valid() && h < |hands| && cardId in hands[h]
      modifies this
      ensures Valid()
      ensures hands == old(hands)[h := RemoveFirst(old(hands)[h], cardId)]
      ensures !InSomeHand(cardId)
      ensures discard == old(discard)
    {
      var k := FirstIndex(hands[h], cardId);
      assert RemoveFirst(hands[h], cardId) == hands[h][..k] + hands[h][k + 1..];
      DistinctRemove(hands, h, k);
      ghost var oldHands := hands;
      hands := hands[h := RemoveFirst(hands[h], cardId)];
      assert forall id :: id in hands[h] ==> id in oldHands[h];
    }

    /** `QuickPlace`: the first hand holding the card is searched; none throws
        ArgumentException. If the top-of-discard placeholder's value differs from the card's, the
        result is false and nothing changes; otherwise the value is discarded (updating the top
        placeholder), the card leaves its hand and the result is true. */
    method QuickPlace(cardId: CardId) returns (r: Result<bool>)
      requires Valid()
      modifies this, registry
      ensures Valid()
      ensures registry.nextId == old(registry.nextId) && registry.placeholders == old(registry.placeholders)
      ensures var h := old(FirstHolder(hands, cardId));
        if h.None? then
          r == Err(Argument) && unchanged(this, registry)
        else if old(registry.numbers[topDiscardCardId] != registry.numbers[cardId]) then
          r == Ok(false) && unchanged(this, registry)
        else
          && r == Ok(true)
          && hands == old(hands)[h.value := RemoveFirst(old(hands)[h.value], cardId)]
          && !InSomeHand(cardId)
          && discard == old(discard) + [old(registry.numbers[cardId]).value]
          && registry.numbers == old(registry.numbers)[topDiscardCardId := old(registry.numbers[cardId])]
    {
      var found := FindHolder(cardId);
      if found.None? {
        return Err(Argument);
      }
      var h := found.value;
      assert HandCard(cardId);
      var cardNumber := StaticCard.Card(cardId).Number(registry).value;
      if StaticCard.GetNumber(registry, topDiscardCardId).value != cardNumber {
        return Ok(false);
      }
      ToDiscard(cardNumber.value);
      RemoveCard(h, cardId);
      r := Ok(true);
    }

    /** `PunishPlayer`: an unknown hand throws ArgumentException. Otherwise the deck is popped
        (InvalidOperationException when empty) and a new card with that value is appended to the
        hand; its id is returned. A new card whose id is already registered throws
        ArgumentException after the deck and the id counter have moved. */
    method PunishPlayer(handId: Byte) returns (r: Result<CardId>)
      requires Valid()
      modifies this, registry, deck
      ensures Valid()
      ensures handId >= |hands| ==> r == Err(Argument) && unchanged(this, registry, deck)
      ensures handId < |hands| && old(deck.cards) == [] ==> r == Err(InvalidOperation) && unchanged(this, registry) && deck.cards == []
      ensures handId < |hands| && old(deck.cards) != [] ==>
        && deck.cards == old(deck.cards)[..|old(deck.cards)| - 1]
        && registry.nextId == NextU16(old(registry.nextId))
        && (old(registry.nextId) in old(registry.numbers) ==>
              r == Err(Argument) && hands == old(hands) && registry.numbers == old(registry.numbers))
        && (old(registry.nextId) !in old(registry.numbers) ==>
              && r == Ok(old(registry.nextId))
              && hands == old(hands)[handId := old(hands)[handId] + [r.value]]
              && registry.numbers == old(registry.numbers)[r.value := Some(old(deck.cards)[|old(deck.cards)| - 1])])
      ensures discard == old(discard) && registry.placeholders == old(registry.placeholders)
    {
      if handId >= |hands| {
        return Err(Argument);
      }
      var drawn := deck.Draw();
      if drawn.Err? {
        return Err(InvalidOperation);
      }
      var card := StaticCard.NewCard(registry, drawn.value);
      if card.Err? {
        return Err(Argument);
      }
      var id := card.value.id;
      DistinctAppend(hands, handId, id);
      hands := hands[handId := hands[handId] + [id]];
      r := Ok(id);
    }

    /** The per-hand accumulation of `CalculateHandValues`. */
    method HandSum(hand: seq<CardId>) returns (handSum: int)
      requires HandCards(hand)
      ensures handSum == HandScore(HandValues(hand))
    {
      handSum := 0;
      for i := 0 to |hand|
        invariant HandCards(hand[..i]) && handSum == HandScore(HandValues(hand[..i]))
      {
        assert hand[..i + 1][..i] == hand[..i];
        assert hand[i] in hand && forall id :: id in hand[..i + 1] ==> id in hand;
        assert HandCard(hand[i]);
        var underlyingValue := StaticCard.Card(hand[i]).Number(registry).value.value;
        if underlyingValue > 52 {
          handSum := handSum - 2;
        } else if underlyingValue == 26 || underlyingValue == 39 {
          handSum := handSum + 13;
        } else {
          handSum := handSum + underlyingValue % 13;
        }
      }
      assert hand[..|hand|] == hand;
    }

    /** `CalculateHandValues`: one (player id, score) pair per hand in player order, the score
        summing each card's points. */
    method CalculateHandValues() returns (r: seq<(Byte, int)>)
      requires Valid()
      ensures |r| == |hands|
      ensures forall p :: 0 <= p < |r| ==> r[p].0 == p && r[p].1 == HandScore(HandValues(hands[p]))
    {
      r := [];
      for p := 0 to |hands|
        invariant |r| == p
        invariant forall q :: 0 <= q < p ==> r[q].0 == q && r[q].1 == HandScore(HandValues(hands[q]))
      {
        var handSum := HandSum(hands[p]);
        r := r + [(p as Byte, handSum)];
      }
    }
  }

  /** Hands dealt as consecutive blocks of `s` ids from `first` are distinct and lie in the
      dealt range. */
  lemma DealtHands(hands: seq<seq<CardId>>, first: int, s: nat)
    requires forall p :: 0 <= p < |hands| ==> |hands[p]| == s && Block(hands[p], first + p * s)
    ensures Distinct(hands)
    ensures forall p, id :: 0 <= p < |hands| && id in hands[p] ==> first <= id < first + |hands| * s
  {
    forall a, i, b, j |
      0 <= a < |hands| && 0 <= i < |hands[a]| && 0 <= b < |hands| && 0 <= j < |hands[b]| &&
      hands[a][i] == hands[b][j]
      ensures a == b && i == j
    {
      DealPosition(a, i, b, j, s);
    }
    forall p, id | 0 <= p < |hands| && id in hands[p] ensures first <= id < first + |hands| * s {
      var i :| 0 <= i < |hands[p]| && hands[p][i] == id;
      DealBound(p, |hands|, s);
    }
  }

  /** Arithmetic for the deal: player p's cards come before player p + 1's. */
  lemma {:induction false} DealBound(p: nat, count: nat, s: nat)
    requires p < count
    ensures p * s + s <= count * s && (p + 1) * s == p * s + s
    decreases count - p
  {
    assert (p + 1) * s == p * s + s;
    if p + 1 < count {
      DealBound(p + 1, count, s);
    }
  }

  /** Two dealt positions with the same id are the same position. */
  lemma DealPosition(a: nat, i: nat, b: nat, j: nat, s: nat)
    requires i < s && j < s
    requires a * s + i == b * s + j
    ensures a == b && i == j
  {
    if a < b {
      DealBound(a, b, s);
      assert false;
    } else if b < a {
      DealBound(b, a, s);
      assert false;
    }
  }
}
