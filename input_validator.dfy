/**
 * The client's `InputValidator`: which cards the user may select in each phase of the game,
 * and whether drawing, passing or calling is open. It reads the client's hand manager and
 * keeps whether the game has been called and by whom.
 */
module Validation {
  import opened Base
  import opened Cards
  import opened Hands
  import opened Turns
  import opened GameStates

  /** The cards of the listed players' hands, player after player and each hand in its order.
      A player without a hand makes `GetCardsInHand` throw ArgumentException. */
  function CardsOf(hands: seq<seq<CardId>>, ids: seq<Byte>): (r: Result<seq<CardId>>)
    ensures r.Ok? <==> forall i :: 0 <= i < |ids| ==> ids[i] < |hands|
    ensures r.Err? ==> r.error == Argument
  {
    if ids == [] then Ok([])
    else
      var front := CardsOf(hands, ids[..|ids| - 1]);
      var last := ids[|ids| - 1];
      if front.Err? then front
      else if last >= |hands| then Err(Argument)
      else Ok(front.value + hands[last])
  }

  /** A card is among the collected ones exactly when one of the listed players holds it. */
  lemma {:induction false} CardsOfMembers(hands: seq<seq<CardId>>, ids: seq<Byte>, c: CardId)
    requires CardsOf(hands, ids).Ok?
    ensures c in CardsOf(hands, ids).value <==> exists k :: 0 <= k < |ids| && ids[k] < |hands| && c in hands[ids[k]]
  {
    if ids != [] {
      var front := ids[..|ids| - 1];
      CardsOfMembers(hands, front, c);
      assert forall k :: 0 <= k < |front| ==> front[k] == ids[k];
      if c in hands[ids[|ids| - 1]] {
        assert ids[|ids| - 1] < |hands|;
      }
    }
  }

  /** The players 0 .. n - 1 hold exactly the ids below n. */
  lemma InSpan(n: nat, x: int)
    requires n <= 0x100
    ensures x in Span(0, n) <==> 0 <= x < n
  {
    if 0 <= x < n {
      assert Span(0, n)[x] == x;
    }
  }

  class InputValidator {
    /** `_handManager`: the client's copy of the table. */
    const handManager: HandManager
    /** `_isCalled`. */
    var isCalled: bool
    /** `_callItPlayerId`, absent until the game is called. */
    var callItPlayerId: Option<Byte>

    /** The hand manager is well formed, and a caller is known exactly once the game is
        called. */
    ghost predicate Valid()
      reads this, handManager, handManager.registry
    {
      handManager.Valid() && (isCalled <==> callItPlayerId.Some?)
    }

    /** `new InputValidator(handManager, callingPlayerId)`: a caller given at construction
        counts as a call. */
    constructor (handManager: HandManager, callingPlayerId: Option<Byte>)
      requires handManager.Valid()
      ensures Valid() && this.handManager == handManager
      ensures isCalled == callingPlayerId.Some? && callItPlayerId == callingPlayerId
    {
      this.handManager := handManager;
      isCalled := false;
      callItPlayerId := None;
      new;
      if callingPlayerId.Some? {
        OnCalledIt(callingPlayerId.value);
      }
    }

    /** `OnCalledIt`: records the call and its caller; from then on nobody may call. */
    method OnCalledIt(callingPlayerId: Byte)
      modifies this
      ensures isCalled && callItPlayerId == Some(callingPlayerId)
      ensures forall s :: !CheckCanCall(s)
    {
      isCalled := true;
      callItPlayerId := Some(callingPlayerId);
    }

    /** `CheckCanDraw`: drawing from the deck is open at the start of one's turn while the deck
        has cards. */
    function CheckCanDraw(currentState: GameState): bool
      reads this, handManager, handManager.deck
    {
      currentState == TurnStart && handManager.deck.Remaining() > 0
    }

    /** `CheckCanPass`: ending the turn is open at its start and at its end. */
    function CheckCanPass(currentState: GameState): bool
    {
      currentState == TurnStart || currentState == TurnEnd
    }

    /** `CheckCanCall`: calling is open until the game is called, outside the phases before
        the game and between one's turns. */
    function CheckCanCall(currentState: GameState): bool
      reads this
    {
      !isCalled && currentState != Initialisation && currentState != Waiting
    }

    /** `GetNonLockedPlayerIds` as it behaves (see `NonLockedAsWritten`), with the caller the
        call recorded. */
    function FreePlayers(currentPlayerId: Byte): Result<seq<Byte>>
      requires Valid()
      reads this, handManager, handManager.registry, handManager.deck
    {
      NonLockedAsWritten(handManager.PlayerIds(), isCalled,
        if isCalled then callItPlayerId.value else 0, currentPlayerId)
    }

    /** `GetNonLockedPlayerIds`. The loop that extends the new order starts by reading
        `playersInNewOrder[-1]`, so with two or more players its first pass throws. */
    method GetNonLockedPlayerIds(currentPlayerId: Byte) returns (r: Result<seq<Byte>>)
      requires Valid()
      ensures r == FreePlayers(currentPlayerId)
    {
      var playerIds := handManager.PlayerIds();
      if !isCalled {
        return Ok(playerIds);
      }
      var order := [callItPlayerId.value];
      if 1 < |playerIds| {
        var last := At(order, -1);
        return Err(last.error);
      }
      var index := FindIndex(order, currentPlayerId);
      var sliced := Slice(order, index, |playerIds|);
      if sliced.Err? && sliced.error == ArgumentOutOfRange {
        return Ok([]);
      }
      r := sliced;
    }

    /** `UserIsLocked`: the user is not among the non-locked players. Before a call only an
        id that is no player is locked; after it, any table of two or more players makes the
        check throw, and a lone player is free only on a turn of its own after its own call. */
    function UserIsLocked(userId: Byte, currentPlayerId: Byte): (r: Result<bool>)
      requires Valid()
      reads this, handManager, handManager.registry, handManager.deck
      ensures !isCalled ==> r == Ok(userId >= |handManager.hands|)
      ensures isCalled && |handManager.hands| >= 2 ==> r == Err(ArgumentOutOfRange)
      ensures isCalled && |handManager.hands| < 2 ==>
        r == Ok(!(userId == callItPlayerId.value && currentPlayerId == userId))
    {
      InSpan(|handManager.hands|, userId);
      NonLockedAsWrittenCases(handManager.PlayerIds(), isCalled,
        if isCalled then callItPlayerId.value else 0, currentPlayerId);
      var free := FreePlayers(currentPlayerId);
      if free.Err? then Err(free.error) else Ok(userId !in free.value)
    }

    /** The client's `GetNextPlayerId`: the next id round the table, wrapping to the first
        player. A valid hand manager has a player, so `playerIds[0]` does not throw. */
    function NextPlayerId(currentPlayerId: Byte): (r: Byte)
      requires Valid()
      reads this, handManager, handManager.registry, handManager.deck
      ensures r == if currentPlayerId + 1 < |handManager.hands| then currentPlayerId + 1 else 0
    {
      var playerIds := handManager.PlayerIds();
      assert playerIds == Span(0, |handManager.hands|);
      InSpan(|handManager.hands|, TruncByte(currentPlayerId + 1));
      if TruncByte(currentPlayerId + 1) in playerIds then TruncByte(currentPlayerId + 1) else playerIds[0]
    }

    /** What `GetValidCardIds` gives, phase by phase. */
    ghost function ValidCardIds(currentState: GameState, userId: Byte, currentPlayerId: Byte): Result<seq<CardId>>
      requires Valid()
      reads this, handManager, handManager.registry, handManager.deck
    {
      var own := handManager.GetCardsInHand(userId);
      var top := handManager.topDiscardCardId;
      match currentState
      case Initialisation => Ok([])
      case QuickPlace => Ok([])
      case Scramble => Ok([])
      case Waiting => WhenFree(UserIsLocked(userId, currentPlayerId), own)
      case TurnEnd => WhenFree(UserIsLocked(userId, currentPlayerId), own)
      case TurnStart =>
        var fromQuickPlace := WhenFree(UserIsLocked(userId, currentPlayerId), own);
        if fromQuickPlace.Err? then fromQuickPlace else Ok(fromQuickPlace.value + [top])
      case DeckDraw => if own.Err? then own else Ok(own.value + [top])
      case DiscardSwap => own
      case PeekSelf => own
      case PeekOther =>
        var free := FreePlayers(currentPlayerId);
        if free.Err? then Err(free.error) else CardsOf(handManager.hands, Others(free.value, userId))
      case SwapCardInHands =>
        var free := FreePlayers(currentPlayerId);
        if free.Err? then Err(free.error) else CardsOf(handManager.hands, free.value)
    }

    /** `UserIsLocked(..) ? [] : cards`, with the check evaluated first. */
    static function WhenFree(locked: Result<bool>, cards: Result<seq<CardId>>): Result<seq<CardId>>
    {
      if locked.Err? then Err(locked.error) else if locked.value then Ok([]) else cards
    }

    /** `GetCardsInHand` of each listed player in turn, its ids added to the list. */
    method CollectCards(ids: seq<Byte>) returns (r: Result<seq<CardId>>)
      ensures r == CardsOf(handManager.hands, ids)
    {
      var cards: seq<CardId> := [];
      for i := 0 to |ids|
        invariant CardsOf(handManager.hands, ids[..i]) == Ok(cards)
      {
        assert ids[..i + 1][..i] == ids[..i];
        var hand := handManager.GetCardsInHand(ids[i]);
        if hand.Err? {
          assert CardsOf(handManager.hands, ids[..i + 1]).Err?;
          CardsOfPrefixErr(handManager.hands, ids, i + 1);
          return Err(hand.error);
        }
        cards := cards + hand.value;
      }
      assert ids[..|ids|] == ids;
      r := Ok(cards);
    }

    /** `GetValidCardIds`: the card ids the user may select in the phase, when
        `currentPlayerId` has the turn. */
    method GetValidCardIds(currentState: GameState, userId: Byte, currentPlayerId: Byte) returns (r: Result<seq<CardId>>)
      requires Valid()
      ensures r == ValidCardIds(currentState, userId, currentPlayerId)
    {
      var top := handManager.topDiscardCardId;
      match currentState {
        case Initialisation =>
          r := Ok([]);
        case QuickPlace =>
          r := Ok([]);
        case Scramble =>
          r := Ok([]);
        case Waiting =>
          r := WhenFree(UserIsLocked(userId, currentPlayerId), handManager.GetCardsInHand(userId));
        case TurnEnd =>
          r := WhenFree(UserIsLocked(userId, currentPlayerId), handManager.GetCardsInHand(userId));
        case TurnStart =>
          var fromQuickPlace := WhenFree(UserIsLocked(userId, currentPlayerId), handManager.GetCardsInHand(userId));
          if fromQuickPlace.Err? {
            return fromQuickPlace;
          }
          r := Ok(fromQuickPlace.value + [top]);
        case DeckDraw =>
          var handCards := handManager.GetCardsInHand(userId);
          if handCards.Err? {
            return handCards;
          }
          r := Ok(handCards.value + [top]);
        case DiscardSwap =>
          r := handManager.GetCardsInHand(userId);
        case PeekSelf =>
          r := handManager.GetCardsInHand(userId);
        case PeekOther =>
          var free := GetNonLockedPlayerIds(currentPlayerId);
          if free.Err? {
            return Err(free.error);
          }
          r := CollectCards(Others(free.value, userId));
        case SwapCardInHands =>
          var free := GetNonLockedPlayerIds(currentPlayerId);
          if free.Err? {
            return Err(free.error);
          }
          r := CollectCards(free.value);
      }
    }
  }

  /** Once a prefix of the players has one without a hand, so has the whole list. */
  lemma {:induction false} CardsOfPrefixErr(hands: seq<seq<CardId>>, ids: seq<Byte>, n: nat)
    requires n <= |ids| && CardsOf(hands, ids[..n]).Err?
    ensures CardsOf(hands, ids).Err?
  {
    var k :| 0 <= k < n && ids[..n][k] >= |hands|;
    assert ids[k] >= |hands|;
  }

  /** Before a call every player is free: a player may select its own cards in every phase
      that offers them (plus the top of the discard pile where that is offered), and an id
      that is no player's gets ArgumentException from the hand lookup. The phases before the
      game, of a quick placement and of a scramble offer no card at all. */
  lemma OwnCardsBeforeCall(v: InputValidator, userId: Byte, currentPlayerId: Byte)
    requires v.Valid() && !v.isCalled
    ensures forall s :: s == Initialisation || s == QuickPlace || s == Scramble ==>
      v.ValidCardIds(s, userId, currentPlayerId) == Ok([])
    ensures userId < |v.handManager.hands| ==>
      var own := v.handManager.hands[userId];
      && v.ValidCardIds(Waiting, userId, currentPlayerId) == Ok(own)
      && v.ValidCardIds(TurnEnd, userId, currentPlayerId) == Ok(own)
      && v.ValidCardIds(DiscardSwap, userId, currentPlayerId) == Ok(own)
      && v.ValidCardIds(PeekSelf, userId, currentPlayerId) == Ok(own)
      && v.ValidCardIds(TurnStart, userId, currentPlayerId) == Ok(own + [v.handManager.topDiscardCardId])
      && v.ValidCardIds(DeckDraw, userId, currentPlayerId) == Ok(own + [v.handManager.topDiscardCardId])
    ensures userId >= |v.handManager.hands| ==>
      && v.ValidCardIds(DeckDraw, userId, currentPlayerId) == Err(Argument)
      && v.ValidCardIds(PeekSelf, userId, currentPlayerId) == Err(Argument)
      && v.ValidCardIds(TurnStart, userId, currentPlayerId) == Ok([v.handManager.topDiscardCardId])
  {
    var empty: seq<CardId> := [];
    assert empty + [v.handManager.topDiscardCardId] == [v.handManager.topDiscardCardId];
  }

  /** Before a call, a peek is offered exactly the cards of the other players' hands. */
  lemma PeekOtherBeforeCall(v: InputValidator, userId: Byte, currentPlayerId: Byte, c: CardId)
    requires v.Valid() && !v.isCalled
    ensures var r := v.ValidCardIds(PeekOther, userId, currentPlayerId);
      r.Ok? && (c in r.value <==>
        exists p :: 0 <= p < |v.handManager.hands| && p != userId && c in v.handManager.hands[p])
  {
    var hands := v.handManager.hands;
    var others := Others(Span(0, |hands|), userId);
    assert v.FreePlayers(currentPlayerId) == Ok(Span(0, |hands|));
    forall i | 0 <= i < |others| ensures others[i] < |hands| {
      assert others[i] in others;
      InSpan(|hands|, others[i]);
    }
    CardsOfMembers(hands, others, c);
    if c in CardsOf(hands, others).value {
      var k :| 0 <= k < |others| && others[k] < |hands| && c in hands[others[k]];
      assert others[k] in others;
    }
    if p :| 0 <= p < |hands| && p != userId && c in hands[p] {
      InSpan(|hands|, p);
      assert p in others;
      var k :| 0 <= k < |others| && others[k] == p;
    }
  }

  /** Before a call, a swap is offered exactly the cards of all hands. */
  lemma SwapBeforeCall(v: InputValidator, userId: Byte, currentPlayerId: Byte, c: CardId)
    requires v.Valid() && !v.isCalled
    ensures var r := v.ValidCardIds(SwapCardInHands, userId, currentPlayerId);
      r.Ok? && (c in r.value <==> exists p :: 0 <= p < |v.handManager.hands| && c in v.handManager.hands[p])
  {
    var hands := v.handManager.hands;
    var all := Span(0, |hands|);
    assert v.FreePlayers(currentPlayerId) == Ok(all);
    CardsOfMembers(hands, all, c);
    if p :| 0 <= p < |hands| && c in hands[p] {
      assert all[p] == p;
    }
  }

  /** Once the game is called at a table of two or more, every phase that asks who is locked
      fails with the exception of `playersInNewOrder[-1]`; the phases that only look at the
      user's own hand are unaffected. */
  lemma LockedTableThrows(v: InputValidator, userId: Byte, currentPlayerId: Byte)
    requires v.Valid() && v.isCalled && |v.handManager.hands| >= 2
    ensures forall s :: s == Waiting || s == TurnEnd || s == TurnStart || s == PeekOther || s == SwapCardInHands ==>
      v.ValidCardIds(s, userId, currentPlayerId) == Err(ArgumentOutOfRange)
    ensures v.ValidCardIds(PeekSelf, userId, currentPlayerId) == v.handManager.GetCardsInHand(userId)
  {
    NonLockedAsWrittenCases(v.handManager.PlayerIds(), true, v.callItPlayerId.value, currentPlayerId);
  }

  /** A peek at another player never offers a card of the user's own hand: no card is in two
      hands. */
  lemma PeekOtherNotOwn(v: InputValidator, userId: Byte, currentPlayerId: Byte, c: CardId)
    requires v.Valid() && userId < |v.handManager.hands|
    requires var r := v.ValidCardIds(PeekOther, userId, currentPlayerId); r.Ok? && c in r.value
    ensures c !in v.handManager.hands[userId]
  {
    var hands := v.handManager.hands;
    var free := v.FreePlayers(currentPlayerId).value;
    var others := Others(free, userId);
    CardsOfMembers(hands, others, c);
    var k :| 0 <= k < |others| && others[k] < |hands| && c in hands[others[k]];
    assert others[k] in others;
    var p := others[k];
    assert p != userId;
    var i :| 0 <= i < |hands[p]| && hands[p][i] == c;
    assert forall j :: 0 <= j < |hands[userId]| ==> hands[userId][j] != hands[p][i];
  }
}
