/**
 * The server's `HostGameManager`: it keeps whose turn it is, the card actions it accepts next,
 * whether the game has been called and by whom, and when the current turn runs out. It takes
 * each request from the packet queue, checks it against that state, applies it to the hands
 * through the hand manager and answers by sending messages. Sending is recorded as a log of
 * (recipients, message); the bytes each message becomes are the packet writer's business.
 *
 * A handler returns `Err` when an exception escapes it, which ends `Run`.
 */
module Host {
  import opened Base
  import opened CardValues
  import opened Cards
  import opened Hands
  import opened Turns
  import StaticCard
  import Wire
  import Reader

  /** Who a message goes to: every connected client (`BroadcastAll`), the clients with the
      listed ids (`BroadcastSpecific`), or the client at a position of the accepted list. */
  datatype Recipients = Everyone | Only(ids: seq<Byte>) | Connection(index: nat)

  /** One message handed to the server. */
  datatype Sent = Sent(to: Recipients, message: Wire.Message)

  /** The owner `GetCardOwnerId` reports for a card in no listed hand: the server, which holds
      the discard pile and the drawn card. */
  const ServerOwned: Byte := 255

  /** The sender id of the end-of-turn packet the host queues for itself on a timeout. */
  const ServerSender: Byte := 255

  /** The host's fields, taken together. */
  datatype HostState = HostState(
    clients: seq<(Byte, Wire.Text)>,
    playerIds: seq<Byte>,
    running: bool,
    turnPlayerId: Byte,
    callItPlayerId: Byte,
    isCalled: bool,
    expected: seq<CardAction>,
    turnTimeLimit: int,
    turnEndTime: int,
    sent: seq<Sent>)

  /** A card in one hand is in no other. */
  lemma NotElsewhere(hands: seq<seq<CardId>>, p: nat, q: nat, id: CardId)
    requires Distinct(hands) && p < |hands| && q < |hands| && p != q
    requires id in hands[p]
    ensures id !in hands[q]
  {
    var i :| 0 <= i < |hands[p]| && hands[p][i] == id;
    assert forall j :: 0 <= j < |hands[q]| ==> hands[q][j] != hands[p][i];
  }

  /** The only hand holding a card is the first. */
  lemma OnlyHolder(hands: seq<seq<CardId>>, p: nat, id: CardId)
    requires Distinct(hands) && p < |hands| && id in hands[p]
    ensures FirstHolder(hands, id) == Some(p)
  {
    forall q | 0 <= q < p ensures id !in hands[q] {
      NotElsewhere(hands, p, q, id);
    }
    FirstHolderIs(hands, id, Some(p));
  }

  /** `GetCardOwnerId`: the first listed player whose hand holds the card, else `ServerOwned`.
      Looking up a listed player that has no hand throws ArgumentException. */
  function OwnerOf(ids: seq<Byte>, hands: seq<seq<CardId>>, cardId: CardId): (r: Result<Byte>)
    ensures r.Ok? ==> r.value == ServerOwned || (r.value in ids && r.value < |hands| && cardId in hands[r.value])
  {
    if ids == [] then Ok(ServerOwned)
    else if ids[0] >= |hands| then Err(Argument)
    else if cardId in hands[ids[0]] then Ok(ids[0])
    else OwnerOf(ids[1..], hands, cardId)
  }

  /** When every listed player has a hand and no card is in two hands, the owner of a card held
      by a listed player is that player. */
  lemma {:induction false} OwnerIsHolder(ids: seq<Byte>, hands: seq<seq<CardId>>, cardId: CardId, p: Byte)
    requires Distinct(hands)
    requires forall x :: x in ids ==> x < |hands|
    requires p in ids && p < |hands| && cardId in hands[p]
    ensures OwnerOf(ids, hands, cardId) == Ok(p)
  {
    assert ids[0] in ids;
    if ids[0] != p {
      NotElsewhere(hands, p, ids[0], cardId);
      assert forall x :: x in ids[1..] ==> x in ids;
      assert p in ids[1..];
      OwnerIsHolder(ids[1..], hands, cardId, p);
    }
  }

  /** A card in no listed hand belongs to the server. */
  lemma {:induction false} OwnerOfUnheld(ids: seq<Byte>, hands: seq<seq<CardId>>, cardId: CardId)
    requires forall x :: x in ids ==> x < |hands| && cardId !in hands[x]
    ensures OwnerOf(ids, hands, cardId) == Ok(ServerOwned)
  {
    if ids != [] {
      assert ids[0] in ids;
      assert forall x :: x in ids[1..] ==> x in ids;
      OwnerOfUnheld(ids[1..], hands, cardId);
    }
  }

  /** Ascending order. */
  ghost predicate Ascending(s: seq<Byte>)
  {
    forall i, j :: 0 <= i < j < |s| ==> s[i] <= s[j]
  }

  /** Puts `x` before the first element it does not exceed. */
  function Insert(x: Byte, s: seq<Byte>): (r: seq<Byte>)
    ensures multiset(r) == multiset(s) + multiset{x}
  {
    if s == [] || x <= s[0] then [x] + s
    else
      assert s == [s[0]] + s[1..];
      [s[0]] + Insert(x, s[1..])
  }

  /** An element no larger than any of an ascending list's elements may go in front. */
  lemma ConsAscending(a: Byte, t: seq<Byte>)
    requires Ascending(t) && forall y :: y in t ==> a <= y
    ensures Ascending([a] + t)
  {
    var r := [a] + t;
    forall i, j | 0 <= i < j < |r| ensures r[i] <= r[j] {
      assert r[j] == t[j - 1] && t[j - 1] in t;
      if i > 0 {
        assert r[i] == t[i - 1];
      }
    }
  }

  /** Inserting into an ascending list keeps it ascending. */
  lemma {:induction false} InsertAscending(x: Byte, s: seq<Byte>)
    requires Ascending(s)
    ensures Ascending(Insert(x, s))
  {
    if s == [] || x <= s[0] {
      ConsAscending(x, s);
    } else {
      var rest := Insert(x, s[1..]);
      InsertAscending(x, s[1..]);
      forall y | y in rest ensures s[0] <= y {
        assert y in multiset(rest);
        if y != x {
          assert y in multiset(s[1..]);
        }
      }
      ConsAscending(s[0], rest);
    }
  }

  /** `OrderBy(id => id)` over ids: the same ids, ascending. */
  function SortIds(ids: seq<Byte>): (r: seq<Byte>)
    ensures Ascending(r)
    ensures multiset(r) == multiset(ids)
  {
    if ids == [] then []
    else
      assert ids == [ids[0]] + ids[1..];
      InsertAscending(ids[0], SortIds(ids[1..]));
      Insert(ids[0], SortIds(ids[1..]))
  }

  /** The ids of the connected clients, in client order. */
  function ClientIds(clients: seq<(Byte, Wire.Text)>): (r: seq<Byte>)
    ensures |r| == |clients| && forall i :: 0 <= i < |r| ==> r[i] == clients[i].0
  {
    if clients == [] then [] else [clients[0].0] + ClientIds(clients[1..])
  }

  /** `DisconnectClient`: the first client with the id leaves the list; with none, nothing
      changes. */
  function RemoveClient(clients: seq<(Byte, Wire.Text)>, id: Byte): (r: seq<(Byte, Wire.Text)>)
    ensures id !in ClientIds(clients) ==> r == clients
    ensures id in ClientIds(clients) ==>
      exists k :: 0 <= k < |clients| && clients[k].0 == id && id !in ClientIds(clients[..k]) &&
        r == clients[..k] + clients[k + 1..]
  {
    var k := FindIndex(ClientIds(clients), id);
    if k < 0 then clients
    else
      assert ClientIds(clients[..k]) == ClientIds(clients)[..k];
      clients[..k] + clients[k + 1..]
  }

  /** The scores of `GameEnd`, as the packet's 32-bit integers. */
  function WrapScores(values: seq<(Byte, int)>): (r: seq<(Byte, I32)>)
    ensures |r| == |values|
    ensures forall p :: 0 <= p < |r| ==> r[p] == (values[p].0, WrapI32(values[p].1))
  {
    if values == [] then [] else [(values[0].0, WrapI32(values[0].1))] + WrapScores(values[1..])
  }

  /** Every player's hand score, in player order. */
  ghost predicate FinalScores(hm: HandManager, scores: seq<(Byte, I32)>)
    requires hm.Valid()
    reads hm, hm.registry
  {
    && |scores| == |hm.hands|
    && forall p :: 0 <= p < |scores| ==> scores[p] == (p as Byte, WrapI32(HandScore(hm.HandValues(hm.hands[p]))))
  }

  /** `HandleEndTurn`'s test for going on, as written: the game ends as soon as it has been
      called, or when the turn passes to `_callItPlayerId`, which is 0 until somebody calls. */
  predicate GameGoesOnAsWritten(isCalled: bool, caller: Byte, next: Byte)
  {
    !isCalled && next != caller
  }

  /** The rule the comment above the test states: the game ends when it has been called and the
      turn comes back to the caller. */
  predicate GameGoesOn(isCalled: bool, caller: Byte, next: Byte)
  {
    !(isCalled && next == caller)
  }

  /** As written, an uncalled game ends when the turn reaches player 0, and a called game ends at
      the very next end of turn. */
  lemma GameEndsEarlyAsWritten(caller: Byte, next: Byte)
    ensures !GameGoesOnAsWritten(false, 0, 0) && GameGoesOn(false, 0, 0)
    ensures !GameGoesOnAsWritten(true, caller, next)
  {
  }

  /** With the intended rule, around a table of players 0 .. n - 1: an uncalled game goes on,
      and once a player calls on its turn, every other player has one more turn and the game
      ends when the turn comes back to the caller. */
  lemma {:induction false} GameGoesOnForOneRound(n: nat, caller: Byte, k: nat)
    requires 0 < n <= 0x100 && caller < n && 0 < k <= n
    ensures forall next :: GameGoesOn(false, caller, next)
    ensures GameGoesOn(true, caller, After(Span(0, n), caller, k)) <==> k < n
  {
    AfterOnTable(n, caller, k - 1);
    SuccessorOnTable(n, After(Span(0, n), caller, k - 1));
  }

  /** The swap test of `HandleSwap` as written refuses unless both a swap and a discard swap are
      expected. */
  predicate SwapRefusedAsWritten(expected: seq<CardAction>)
  {
    CardAction.Swap !in expected || DiscardSwap !in expected
  }

  /** The evidently intended test: refuse only when neither kind of swap is expected. */
  predicate SwapRefused(expected: seq<CardAction>)
  {
    CardAction.Swap !in expected && DiscardSwap !in expected
  }

  /** The host only ever expects one card action, or the three of a turn's start; none of those
      lists holds both kinds of swap, so as written every swap is refused. */
  lemma SwapAlwaysRefusedAsWritten(v: CardValue)
    requires v != 0
    ensures SwapRefusedAsWritten([CardAction.Swap])
    ensures SwapRefusedAsWritten([CardAction.None])
    ensures SwapRefusedAsWritten([GetCardAction(v)])
    ensures SwapRefusedAsWritten([DiscardSwap, CardAction.Draw, CardAction.QuickPlace])
  {
  }

  /** With the intended test, a swap is accepted after a draw, after a discarded jack or queen
      and at the start of the first turn, and still refused once the action is spent. */
  lemma SwapAcceptedWhenExpected(v: CardValue)
    requires v != 0 && v % 13 in {11, 12}
    ensures !SwapRefused([CardAction.Swap])
    ensures !SwapRefused([GetCardAction(v)])
    ensures !SwapRefused([DiscardSwap, CardAction.Draw, CardAction.QuickPlace])
    ensures SwapRefused([CardAction.None])
  {
  }

  /** The kinds of packet `Run` hands to a handler; it skips every other kind. */
  predicate Handled(m: Wire.Message)
  {
    m.Disconnection? || m.QuickPlace? || m.PassTurn? || m.ForceEndTurn? || m.Draw? || m.Discard? ||
    m.Swap? || m.Peek? || m.CallIt?
  }

  /** The game has ended: the last message sent gave everyone the final scores. */
  predicate Ended(sent: seq<Sent>)
  {
    sent != [] && sent[|sent| - 1].to == Everyone && sent[|sent| - 1].message.GameEnd?
  }

  class HostGameManager {
    /** `_handManager`. */
    const handManager: HandManager
    /** The packet reader's queue of processed packets. */
    const queue: Reader.PacketQueue
    /** The server's connected clients, id and user name, in connection order. */
    var clients: seq<(Byte, Wire.Text)>
    /** `_turnTimeLimit`, in seconds. */
    var turnTimeLimit: int
    var playerIds: seq<Byte>
    /** `_run`. */
    var running: bool
    var turnPlayerId: Byte
    var callItPlayerId: Byte
    var isCalled: bool
    /** `_expectedCardActions`. */
    var expected: seq<CardAction>
    /** `_currentTurnEndTime`, in seconds. */
    var turnEndTime: int
    /** Every message handed to the server so far, oldest first. */
    var sent: seq<Sent>

    ghost function State(): HostState
      reads this
    {
      HostState(clients, playerIds, running, turnPlayerId, callItPlayerId, isCalled, expected,
        turnTimeLimit, turnEndTime, sent)
    }

    /** The hands are consistent, and the actions the host expects never hold both kinds of
        swap. */
    ghost predicate Valid()
      reads this, handManager, handManager.registry
    {
      handManager.Valid() && !(CardAction.Swap in expected && DiscardSwap in expected)
    }

    /** `new HostGameManager(handManager, server)`; `now` is the clock at construction. */
    constructor (handManager: HandManager, queue: Reader.PacketQueue, clients: seq<(Byte, Wire.Text)>, now: int)
      requires handManager.Valid()
      ensures Valid()
      ensures this.handManager == handManager && this.queue == queue
      ensures State() == HostState(clients, [], false, 0, 0, false, [CardAction.None], 30, now, [])
    {
      this.handManager := handManager;
      this.queue := queue;
      this.clients := clients;
      turnTimeLimit := 30;
      playerIds := [];
      running := false;
      turnPlayerId := 0;
      callItPlayerId := 0;
      isCalled := false;
      expected := [CardAction.None];
      turnEndTime := now;
      sent := [];
    }

    /** The id loop of `InitialiseAllClients`: the client at position i becomes player i and is
        sent its id. The loop counter is a byte, so with 256 or more clients it would never
        stop. */
    method AssignIds()
      requires |clients| < 0x100
      modifies this
      ensures State() == old(State()).(playerIds := playerIds, sent := sent)
      ensures |playerIds| == |old(playerIds)| + |clients| && |sent| == |old(sent)| + |clients|
      ensures playerIds[..|old(playerIds)|] == old(playerIds) && sent[..|old(sent)|] == old(sent)
      ensures forall k :: |old(playerIds)| <= k < |playerIds| ==> playerIds[k] == k - |old(playerIds)|
      ensures forall k :: |old(sent)| <= k < |sent| ==>
        sent[k] == Sent(Connection(k - |old(sent)|), Wire.AssignId((k - |old(sent)|) as Byte))
    {
      var ids, log := playerIds, sent;
      for i := 0 to |clients|
        invariant |ids| == |playerIds| + i && |log| == |sent| + i
        invariant ids[..|playerIds|] == playerIds && log[..|sent|] == sent
        invariant forall k :: |playerIds| <= k < |ids| ==> ids[k] == k - |playerIds|
        invariant forall k :: |sent| <= k < |log| ==>
          log[k] == Sent(Connection(k - |sent|), Wire.AssignId((k - |sent|) as Byte))
      {
        ids := ids + [i as Byte];
        log := log + [Sent(Connection(i), Wire.AssignId(i as Byte))];
      }
      playerIds, sent := ids, log;
    }

    /** `SendToWaitingPlayers`: the message goes to every player but the turn player. */
    method SendToWaitingPlayers(message: Wire.Message)
      modifies this
      ensures State() == old(State()).(sent := old(sent) + [Sent(Only(Others(playerIds, turnPlayerId)), message)])
    {
      sent := sent + [Sent(Only(Others(playerIds, turnPlayerId)), message)];
    }

    /** `GetCardOwnerId`, specified by `OwnerOf`. */
    method GetCardOwnerId(cardId: CardId) returns (r: Result<Byte>)
      ensures r == OwnerOf(playerIds, handManager.hands, cardId)
    {
      for i := 0 to |playerIds|
        invariant OwnerOf(playerIds, handManager.hands, cardId) == OwnerOf(playerIds[i..], handManager.hands, cardId)
      {
        var cards := handManager.GetCardsInHand(playerIds[i]);
        if cards.Err? {
          return Err(cards.error);
        }
        if cardId in cards.value {
          return Ok(playerIds[i]);
        }
        assert playerIds[i..][1..] == playerIds[i + 1..];
      }
      r := Ok(ServerOwned);
    }

    /** `GetNonLockedPlayers`, specified by `NonLockedAsWritten`. The loop that extends the new
        order starts by reading `playersInNewOrder[-1]`, so with two or more players its first
        pass throws and it never completes one. */
    method GetNonLockedPlayers() returns (r: Result<seq<Byte>>)
      ensures r == NonLockedAsWritten(playerIds, isCalled, callItPlayerId, turnPlayerId)
    {
      if !isCalled {
        return Ok(playerIds);
      }
      var order := [callItPlayerId];
      if 1 < |playerIds| {
        var last := At(order, -1);
        return Err(last.error);
      }
      var index := FindIndex(order, turnPlayerId);
      var sliced := Slice(order, index, |playerIds|);
      if sliced.Err? && sliced.error == ArgumentOutOfRange {
        return Ok([]);
      }
      r := sliced;
    }

    /** `HandleCall`: only the turn player may call, and only once per game. */
    method HandleCall(senderId: Byte)
      modifies this
      ensures senderId != old(turnPlayerId) || old(isCalled) ==> unchanged(this)
      ensures senderId == old(turnPlayerId) && !old(isCalled) ==>
        State() == old(State()).(isCalled := true, callItPlayerId := senderId)
    {
      if senderId != turnPlayerId {
        return;
      }
      if isCalled {
        return;
      }
      isCalled := true;
      callItPlayerId := turnPlayerId;
    }

    /** `HandleDraw`: the turn player may draw when a draw is expected and the deck is not empty.
        The drawn value goes to the drawer alone; the others are told a draw happened, and a
        swap is expected next. */
    method HandleDraw(senderId: Byte)
      requires Valid()
      modifies this, handManager.registry, handManager.deck
      ensures Valid()
      ensures senderId != old(turnPlayerId) || CardAction.Draw !in old(expected) || old(handManager.deck.cards) == [] ==>
        unchanged(this, handManager.registry, handManager.deck)
      ensures senderId == old(turnPlayerId) && CardAction.Draw in old(expected) && old(handManager.deck.cards) != [] ==>
        var top := old(handManager.deck.cards[|handManager.deck.cards| - 1]);
        && handManager.deck.cards == old(handManager.deck.cards[..|handManager.deck.cards| - 1])
        && handManager.registry.numbers == old(handManager.registry.numbers)[handManager.heldCardId := Some(top)]
        && handManager.registry.nextId == old(handManager.registry.nextId)
        && handManager.registry.placeholders == old(handManager.registry.placeholders)
        && State() == old(State()).(expected := [CardAction.Swap], sent := old(sent) + [
             Sent(Only(Others(playerIds, turnPlayerId)), Wire.DisplayDraw),
             Sent(Only([turnPlayerId]), Wire.DrawResult(top))])
    {
      if senderId != turnPlayerId {
        return;
      }
      if CardAction.Draw !in expected {
        return;
      }
      if handManager.deck.Remaining() < 1 {
        return;
      }
      expected := [CardAction.Swap];
      var drawn := handManager.DrawCard();
      SendToWaitingPlayers(Wire.DisplayDraw);
      var held := StaticCard.GetNumber(handManager.registry, handManager.heldCardId);
      sent := sent + [Sent(Only([turnPlayerId]), Wire.DrawResult(held.value.value))];
    }

    /** `HandlePeek`: a peek at a card of the turn player's own hand must be an expected
        PeekSelf, any other card an expected PeekOther. The value goes to the turn player, the
        others are told which card was looked at, and nothing more is expected. An unknown turn
        player throws ArgumentException; a card with no value throws InvalidOperationException
        once the expectation is cleared. */
    method HandlePeek(senderId: Byte, cardId: CardId) returns (r: Result<()>)
      requires Valid()
      modifies this
      ensures Valid()
      ensures senderId != old(turnPlayerId) ==> r == Ok(()) && unchanged(this)
      ensures senderId == old(turnPlayerId) && senderId >= |handManager.hands| ==> r == Err(Argument) && unchanged(this)
      ensures senderId == old(turnPlayerId) && senderId < |handManager.hands| ==>
        var requested := if cardId in handManager.hands[senderId] then PeekSelf else PeekOther;
        var number := handManager.registry.GetNumber(cardId);
        if requested !in old(expected) then
          r == Ok(()) && unchanged(this)
        else if number.Err? || number.value.None? then
          r == Err(InvalidOperation) && State() == old(State()).(expected := [CardAction.None])
        else
          && r == Ok(())
          && State() == old(State()).(expected := [CardAction.None], sent := old(sent) + [
               Sent(Only([senderId]), Wire.PeekResult(number.value.value)),
               Sent(Only(Others(playerIds, senderId)), Wire.DisplayPeek(cardId))])
    {
      if senderId != turnPlayerId {
        return Ok(());
      }
      var hand := handManager.GetCardsInHand(turnPlayerId);
      if hand.Err? {
        return Err(hand.error);
      }
      var requested := if cardId in hand.value then PeekSelf else PeekOther;
      if requested !in expected {
        return Ok(());
      }
      expected := [CardAction.None];
      var number := StaticCard.GetNumber(handManager.registry, cardId);
      if number.Err? || number.value.None? {
        return Err(InvalidOperation);
      }
      sent := sent + [Sent(Only([turnPlayerId]), Wire.PeekResult(number.value.value))];
      SendToWaitingPlayers(Wire.DisplayPeek(cardId));
      r := Ok(());
    }

    /** The checks of `HandleSwap` before the swap: `Ok(true)` when it goes ahead, `Ok(false)`
        when it is refused, `Err` when a check throws. A swap touching a player's card must
        involve a player who is not locked (the lower owner id of the two). */
    ghost function SwapGate(senderId: Byte, cardId1: CardId, cardId2: CardId): Result<bool>
      reads this, handManager
    {
      if senderId != turnPlayerId || SwapRefusedAsWritten(expected) then Ok(false)
      else
        var owner1 := OwnerOf(playerIds, handManager.hands, cardId1);
        var owner2 := OwnerOf(playerIds, handManager.hands, cardId2);
        if owner1.Err? then Err(owner1.error)
        else if owner2.Err? then Err(owner2.error)
        else if owner1.value == ServerOwned && owner2.value == ServerOwned then Ok(true)
        else
          var free := NonLockedAsWritten(playerIds, isCalled, callItPlayerId, turnPlayerId);
          var playerCard := if owner1.value < owner2.value then owner1.value else owner2.value;
          if free.Err? then Err(free.error) else Ok(playerCard in free.value)
    }

    /** The checks of `HandleSwap`, in the source's order, specified by `SwapGate`. */
    method CheckSwap(senderId: Byte, cardId1: CardId, cardId2: CardId) returns (go: Result<bool>)
      ensures go == SwapGate(senderId, cardId1, cardId2)
    {
      if senderId != turnPlayerId {
        return Ok(false);
      }
      if CardAction.Swap !in expected || DiscardSwap !in expected {
        return Ok(false);
      }
      var owner1 := GetCardOwnerId(cardId1);
      if owner1.Err? {
        return Err(owner1.error);
      }
      var owner2 := GetCardOwnerId(cardId2);
      if owner2.Err? {
        return Err(owner2.error);
      }
      if owner1.value != ServerOwned || owner2.value != ServerOwned {
        var playerCard := if owner1.value < owner2.value then owner1.value else owner2.value;
        var free := GetNonLockedPlayers();
        if free.Err? {
          return Err(free.error);
        }
        return Ok(playerCard in free.value);
      }
      go := Ok(true);
    }

    /** `HandleSwap`. Its state test accepts only when both a swap and a discard swap are
        expected, which the host never has, so in a valid host every swap is refused. When the
        test passes, a swap of the held card with the discard pile while nothing is held fails
        the hand manager's assertion; otherwise the swap is applied, nothing more is expected
        and the others are told. */
    method HandleSwap(senderId: Byte, cardId1: CardId, cardId2: CardId) returns (r: Result<()>)
      requires handManager.Valid()
      modifies this, handManager, handManager.registry
      ensures handManager.Valid()
      ensures SwapRefusedAsWritten(old(expected)) ==> r == Ok(()) && unchanged(this, handManager, handManager.registry)
      ensures old(SwapGate(senderId, cardId1, cardId2)).Err? ==>
        r == Err(old(SwapGate(senderId, cardId1, cardId2)).error) && unchanged(this, handManager, handManager.registry)
      ensures old(SwapGate(senderId, cardId1, cardId2)) == Ok(false) ==>
        r == Ok(()) && unchanged(this, handManager, handManager.registry)
      ensures old(SwapGate(senderId, cardId1, cardId2)) == Ok(true) ==>
        var o := old(handManager.SwapOutcome(cardId1, cardId2));
        && handManager.hands == old(handManager.hands)
        && (o.Err? ==> r == Err(o.error) && unchanged(this, handManager, handManager.registry))
        && (o.Ok? ==>
              && r == Ok(())
              && handManager.discard == o.value.0
              && handManager.registry.numbers == o.value.1
              && handManager.registry.nextId == old(handManager.registry.nextId)
              && handManager.registry.placeholders == old(handManager.registry.placeholders)
              && State() == old(State()).(expected := [CardAction.None],
                   sent := old(sent) + [Sent(Only(Others(playerIds, turnPlayerId)), Wire.DisplaySwap(cardId1, cardId2))]))
    {
      var go := CheckSwap(senderId, cardId1, cardId2);
      if go.Err? {
        return Err(go.error);
      }
      if !go.value {
        return Ok(());
      }
      if handManager.SwapPath(cardId1, cardId2) == 2 && handManager.registry.numbers[handManager.heldCardId].None? {
        return Err(AssertionFailed);
      }
      var swapped := handManager.Swap(cardId1, cardId2);
      if swapped.Err? {
        return swapped;
      }
      expected := [CardAction.None];
      SendToWaitingPlayers(Wire.DisplaySwap(cardId1, cardId2));
      r := Ok(());
    }

    /** `HandleDiscard`: the turn player's held card goes to the discard pile (a held card must
        exist: the hand manager asserts it), the discarded value's card action is expected next,
        and the value goes to the turn player. A discarded value 0 has no card action and fails
        that assertion. */
    method HandleDiscard(senderId: Byte) returns (r: Result<()>)
      requires Valid()
      modifies this, handManager, handManager.registry
      ensures Valid()
      ensures senderId != old(turnPlayerId) ==> r == Ok(()) && unchanged(this, handManager, handManager.registry)
      ensures senderId == old(turnPlayerId) && old(handManager.registry.numbers[handManager.heldCardId]).None? ==>
        r == Err(AssertionFailed) && unchanged(this, handManager, handManager.registry)
      ensures senderId == old(turnPlayerId) && old(handManager.registry.numbers[handManager.heldCardId]).Some? ==>
        var v := old(handManager.registry.numbers[handManager.heldCardId]).value;
        && handManager.hands == old(handManager.hands)
        && handManager.discard == old(handManager.discard) + [v]
        && handManager.registry.numbers == old(handManager.registry.numbers)
             [handManager.topDiscardCardId := Some(v)][handManager.heldCardId := Option.None]
        && handManager.registry.nextId == old(handManager.registry.nextId)
        && handManager.registry.placeholders == old(handManager.registry.placeholders)
        && (v == 0 ==> r == Err(AssertionFailed) && unchanged(this))
        && (v != 0 ==> r == Ok(()) && State() == old(State()).(expected := [GetCardAction(v)],
             sent := old(sent) + [Sent(Only([senderId]), Wire.DiscardResult(v))]))
    {
      if senderId != turnPlayerId {
        return Ok(());
      }
      if handManager.registry.numbers[handManager.heldCardId].None? {
        return Err(AssertionFailed);
      }
      handManager.DiscardHeldCard();
      var discarded := StaticCard.GetNumber(handManager.registry, handManager.topDiscardCardId).value.value;
      if discarded == 0 {
        return Err(AssertionFailed);
      }
      expected := [GetCardAction(discarded)];
      sent := sent + [Sent(Only([turnPlayerId]), Wire.DiscardResult(discarded))];
      r := Ok(());
    }

    /** `HandleEndTurn`: the turn passes to the next player (with no players, `First()` throws).
        If the game goes on, everyone is told whose turn starts, a swap is expected and the
        deadline is reset from `now`; otherwise everyone gets the final scores and the game
        stops. */
    method HandleEndTurn(now: int) returns (r: Result<()>)
      requires Valid()
      modifies this
      ensures Valid()
      ensures old(playerIds) == [] ==> r == Err(InvalidOperation) && unchanged(this)
      ensures old(playerIds) != [] ==>
        var next := Successor(old(playerIds), old(turnPlayerId));
        && r == Ok(())
        && (GameGoesOnAsWritten(old(isCalled), old(callItPlayerId), next) ==>
              State() == old(State()).(turnPlayerId := next, expected := [CardAction.Swap],
                turnEndTime := now + old(turnTimeLimit), sent := old(sent) + [Sent(Everyone, Wire.StartTurn(next))]))
        && (!GameGoesOnAsWritten(old(isCalled), old(callItPlayerId), next) ==>
              && |sent| == |old(sent)| + 1 && sent[..|old(sent)|] == old(sent)
              && sent[|old(sent)|].to == Everyone && sent[|old(sent)|].message.GameEnd?
              && FinalScores(handManager, sent[|old(sent)|].message.scores)
              && State() == old(State()).(turnPlayerId := next, running := false, sent := sent))
    {
      NextPlayerAsWrittenOnTurn(playerIds, turnPlayerId);
      var next := NextPlayerAsWritten(playerIds, turnPlayerId, turnPlayerId);
      if next.Err? {
        return Err(next.error);
      }
      turnPlayerId := next.value;
      if GameGoesOnAsWritten(isCalled, callItPlayerId, turnPlayerId) {
        sent := sent + [Sent(Everyone, Wire.StartTurn(turnPlayerId))];
        expected := [CardAction.Swap];
        turnEndTime := now + turnTimeLimit;
        return Ok(());
      }
      EndGame();
      r := Ok(());
    }

    /** The end of `HandleEndTurn` when the game does not go on: everyone gets the final scores
        and the game stops. */
    method EndGame()
      requires Valid()
      modifies this
      ensures Valid()
      ensures |sent| == |old(sent)| + 1 && sent[..|old(sent)|] == old(sent)
      ensures sent[|old(sent)|].to == Everyone && sent[|old(sent)|].message.GameEnd?
      ensures FinalScores(handManager, sent[|old(sent)|].message.scores)
      ensures State() == old(State()).(running := false, sent := sent)
    {
      var values := handManager.CalculateHandValues();
      sent := sent + [Sent(Everyone, Wire.GameEnd(WrapScores(values)))];
      running := false;
    }

    /** The checks of `HandleQuickPlace` before the placement: `Ok(true)` when it goes ahead,
        `Ok(false)` when it is refused, `Err` when a check throws. The deck must not be empty
        (a wrong placement is punished with a card), a locked sender (one seated before the turn
        player once the game is called) may not place, the card must be in the sender's own
        hand and its owner must not be locked. */
    ghost function QuickPlaceGate(senderId: Byte, cardId: CardId): Result<bool>
      reads this, handManager, handManager.deck
    {
      if handManager.deck.cards == [] then Ok(false)
      else if senderId < turnPlayerId && isCalled then Ok(false)
      else if senderId >= |handManager.hands| then Err(Argument)
      else if cardId !in handManager.hands[senderId] then Ok(false)
      else
        var free := NonLockedAsWritten(playerIds, isCalled, callItPlayerId, turnPlayerId);
        var owner := OwnerOf(playerIds, handManager.hands, cardId);
        if free.Err? then Err(free.error)
        else if owner.Err? then Err(owner.error)
        else Ok(owner.value in free.value)
    }

    /** The checks of `HandleQuickPlace`, in the source's order, specified by
        `QuickPlaceGate`. */
    method CheckQuickPlace(senderId: Byte, cardId: CardId) returns (go: Result<bool>)
      ensures go == QuickPlaceGate(senderId, cardId)
    {
      if handManager.deck.Remaining() < 1 {
        return Ok(false);
      }
      if senderId < turnPlayerId && isCalled {
        return Ok(false);
      }
      var hand := handManager.GetCardsInHand(senderId);
      if hand.Err? {
        return Err(hand.error);
      }
      if cardId !in hand.value {
        return Ok(false);
      }
      var free := GetNonLockedPlayers();
      if free.Err? {
        return Err(free.error);
      }
      var owner := GetCardOwnerId(cardId);
      if owner.Err? {
        return Err(owner.error);
      }
      go := Ok(owner.value in free.value);
    }

    /** `HandleQuickPlace`. Once the checks pass, the others are told which card is being
        placed. If its value matches the top of the discard pile, the card leaves the hand onto
        the pile, everyone is told of the success and the value's card action is expected. If
        not, but the sender saw that value on the pile, everyone is told the placement came too
        late. Otherwise the sender is punished with a card from the deck and everyone is told
        of the failure. */
    method HandleQuickPlace(senderId: Byte, cardId: CardId, seenDiscard: Byte) returns (r: Result<()>)
      requires Valid()
      modifies this, handManager, handManager.registry, handManager.deck
      ensures Valid()
      ensures old(QuickPlaceGate(senderId, cardId)).Err? ==>
        r == Err(old(QuickPlaceGate(senderId, cardId)).error) &&
        unchanged(this, handManager, handManager.registry, handManager.deck)
      ensures old(QuickPlaceGate(senderId, cardId)) == Ok(false) ==>
        r == Ok(()) && unchanged(this, handManager, handManager.registry, handManager.deck)
      ensures old(QuickPlaceGate(senderId, cardId)) == Ok(true) ==>
        var v := old(handManager.registry.numbers[cardId]).value;
        var announced := old(sent) + [Sent(Only(Others(playerIds, turnPlayerId)), Wire.QuickPlace(cardId, seenDiscard))];
        if old(handManager.registry.numbers[handManager.topDiscardCardId]) == Some(v) then
          && handManager.hands == old(handManager.hands)[senderId := RemoveFirst(old(handManager.hands[senderId]), cardId)]
          && handManager.discard == old(handManager.discard) + [v]
          && handManager.registry.numbers == old(handManager.registry.numbers)[handManager.topDiscardCardId := Some(v)]
          && handManager.registry.nextId == old(handManager.registry.nextId)
          && handManager.registry.placeholders == old(handManager.registry.placeholders)
          && unchanged(handManager.deck)
          && r == (if v == 0 then Err(AssertionFailed) else Ok(()))
          && State() == old(State()).(
               expected := if v == 0 then old(expected) else [GetCardAction(v)],
               sent := announced + [Sent(Everyone, Wire.QuickPlaceResult(Wire.Success, senderId, v))])
        else if v == seenDiscard then
          && r == Ok(())
          && unchanged(handManager, handManager.registry, handManager.deck)
          && State() == old(State()).(sent := announced + [Sent(Everyone, Wire.QuickPlaceResult(Wire.TooLate, senderId, v))])
        else
          var newId := old(handManager.registry.nextId);
          && handManager.deck.cards == old(handManager.deck.cards[..|handManager.deck.cards| - 1])
          && handManager.discard == old(handManager.discard)
          && handManager.registry.nextId == NextU16(newId)
          && handManager.registry.placeholders == old(handManager.registry.placeholders)
          && (newId in old(handManager.registry.numbers) ==>
                && r == Err(Argument)
                && handManager.hands == old(handManager.hands)
                && handManager.registry.numbers == old(handManager.registry.numbers)
                && State() == old(State()).(sent := announced))
          && (newId !in old(handManager.registry.numbers) ==>
                && r == Ok(())
                && handManager.hands == old(handManager.hands)[senderId := old(handManager.hands[senderId]) + [newId]]
                && handManager.registry.numbers ==
                     old(handManager.registry.numbers)[newId := Some(old(handManager.deck.cards[|handManager.deck.cards| - 1]))]
                && State() == old(State()).(sent := announced + [Sent(Everyone, Wire.QuickPlaceResult(Wire.Failure, senderId, v))]))
    {
      var go := CheckQuickPlace(senderId, cardId);
      if go.Err? {
        return Err(go.error);
      }
      if !go.value {
        return Ok(());
      }
      SendToWaitingPlayers(Wire.QuickPlace(cardId, seenDiscard));
      r := PlaceCard(senderId, cardId, seenDiscard);
    }

    /** The part of `HandleQuickPlace` after its checks. */
    method PlaceCard(senderId: Byte, cardId: CardId, seenDiscard: Byte) returns (r: Result<()>)
      requires Valid()
      requires handManager.deck.cards != [] && senderId < |handManager.hands| && cardId in handManager.hands[senderId]
      modifies this, handManager, handManager.registry, handManager.deck
      ensures Valid()
      ensures var v := old(handManager.registry.numbers[cardId]).value;
        if old(handManager.registry.numbers[handManager.topDiscardCardId]) == Some(v) then
          && handManager.hands == old(handManager.hands)[senderId := RemoveFirst(old(handManager.hands[senderId]), cardId)]
          && handManager.discard == old(handManager.discard) + [v]
          && handManager.registry.numbers == old(handManager.registry.numbers)[handManager.topDiscardCardId := Some(v)]
          && handManager.registry.nextId == old(handManager.registry.nextId)
          && handManager.registry.placeholders == old(handManager.registry.placeholders)
          && unchanged(handManager.deck)
          && r == (if v == 0 then Err(AssertionFailed) else Ok(()))
          && State() == old(State()).(
               expected := if v == 0 then old(expected) else [GetCardAction(v)],
               sent := old(sent) + [Sent(Everyone, Wire.QuickPlaceResult(Wire.Success, senderId, v))])
        else if v == seenDiscard then
          && r == Ok(())
          && unchanged(handManager, handManager.registry, handManager.deck)
          && State() == old(State()).(sent := old(sent) + [Sent(Everyone, Wire.QuickPlaceResult(Wire.TooLate, senderId, v))])
        else
          var newId := old(handManager.registry.nextId);
          && handManager.deck.cards == old(handManager.deck.cards[..|handManager.deck.cards| - 1])
          && handManager.discard == old(handManager.discard)
          && handManager.registry.nextId == NextU16(newId)
          && handManager.registry.placeholders == old(handManager.registry.placeholders)
          && (newId in old(handManager.registry.numbers) ==>
                && r == Err(Argument)
                && handManager.hands == old(handManager.hands)
                && handManager.registry.numbers == old(handManager.registry.numbers)
                && unchanged(this))
          && (newId !in old(handManager.registry.numbers) ==>
                && r == Ok(())
                && handManager.hands == old(handManager.hands)[senderId := old(handManager.hands[senderId]) + [newId]]
                && handManager.registry.numbers ==
                     old(handManager.registry.numbers)[newId := Some(old(handManager.deck.cards[|handManager.deck.cards| - 1]))]
                && State() == old(State()).(sent := old(sent) + [Sent(Everyone, Wire.QuickPlaceResult(Wire.Failure, senderId, v))]))
    {
      assert handManager.HandCard(cardId);
      var placedVal := StaticCard.GetNumber(handManager.registry, cardId).value.value;
      OnlyHolder(handManager.hands, senderId, cardId);
      var success := handManager.QuickPlace(cardId);
      if success == Ok(true) {
        sent := sent + [Sent(Everyone, Wire.QuickPlaceResult(Wire.Success, senderId, placedVal))];
        if placedVal == 0 {
          return Err(AssertionFailed);
        }
        expected := [GetCardAction(placedVal)];
        return Ok(());
      }
      if placedVal == seenDiscard {
        sent := sent + [Sent(Everyone, Wire.QuickPlaceResult(Wire.TooLate, senderId, placedVal))];
        return Ok(());
      }
      var punished := handManager.PunishPlayer(senderId);
      if punished.Err? {
        return Err(punished.error);
      }
      sent := sent + [Sent(Everyone, Wire.QuickPlaceResult(Wire.Failure, senderId, placedVal))];
      r := Ok(());
    }

    /** `HandleDisconnection`: the first client with the id is dropped from the server's list,
        and the player ids become the remaining clients' ids in ascending order. */
    method HandleDisconnection(disconnectedId: Byte)
      modifies this
      ensures clients == RemoveClient(old(clients), disconnectedId)
      ensures Ascending(playerIds) && multiset(playerIds) == multiset(ClientIds(clients))
      ensures State() == old(State()).(clients := clients, playerIds := playerIds)
    {
      clients := RemoveClient(clients, disconnectedId);
      playerIds := SortIds(ClientIds(clients));
    }

    /** `Random.Next(0, last)`: some id below `last`, or 0 when `last` is 0. The generator is not
        modelled; any such id may come out. */
    static method PickFirst(last: Byte) returns (first: Byte)
      ensures if last == 0 then first == 0 else first < last
    {
      if last == 0 {
        first := 0;
      } else {
        first :| 0 <= first < last;
      }
    }

    /** The InitialiseGame message of the game's start: the starting hand size and the deck
        size (cast to `int`), the turn time limit and the connected players. */
    function Settings(turnTimeLimit: I32): (m: Wire.Message)
      reads this
      ensures m.InitialiseGame? && m.turnTimeLimit == turnTimeLimit && m.players == clients
    {
      Wire.InitialiseGame(WrapI32(handManager.startingCards), WrapI32(handManager.deckSize),
        turnTimeLimit, clients)
    }

    /** The start of `Run`: everyone is told the game's settings and the connected players, the
        first player is drawn at random below the last player id (0 when that id is 0), everyone
        is told whose turn starts, the actions of a turn's start are expected and the deadline
        is set. With no players, `Last()` throws InvalidOperationException once the settings are
        out. */
    method StartGame(turnTimeLimit: I32, now: int) returns (r: Result<()>)
      requires Valid()
      modifies this
      ensures Valid() && running
      ensures old(playerIds) == [] ==> r == Err(InvalidOperation)
      ensures old(playerIds) == [] ==>
        State() == old(State()).(running := true, sent := old(sent) + [Sent(Everyone, old(Settings(turnTimeLimit)))])
      ensures old(playerIds) != [] ==> r == Ok(())
      ensures old(playerIds) != [] ==>
        var last := old(playerIds[|playerIds| - 1]);
        if last == 0 then turnPlayerId == 0 else turnPlayerId < last
      ensures old(playerIds) != [] ==>
        State() == old(State()).(running := true, turnPlayerId := turnPlayerId,
          expected := [DiscardSwap, CardAction.Draw, CardAction.QuickPlace],
          turnTimeLimit := turnTimeLimit, turnEndTime := now + turnTimeLimit,
          sent := old(sent) + [Sent(Everyone, old(Settings(turnTimeLimit))), Sent(Everyone, Wire.StartTurn(turnPlayerId))])
    {
      running := true;
      var init := Settings(turnTimeLimit);
      sent := sent + [Sent(Everyone, init)];
      if playerIds == [] {
        return Err(InvalidOperation);
      }
      BeginFirstTurn(turnTimeLimit, now);
      r := Ok(());
    }

    /** The part of the start that needs a player: a random first player, announced to everyone,
        with the actions of a turn's start expected and the deadline `now + turnTimeLimit`. */
    method BeginFirstTurn(turnTimeLimit: I32, now: int)
      requires Valid() && playerIds != []
      modifies this
      ensures Valid()
      ensures var last := old(playerIds[|playerIds| - 1]);
        if last == 0 then turnPlayerId == 0 else turnPlayerId < last
      ensures State() == old(State()).(turnPlayerId := turnPlayerId,
        expected := [DiscardSwap, CardAction.Draw, CardAction.QuickPlace],
        turnTimeLimit := turnTimeLimit, turnEndTime := now + turnTimeLimit,
        sent := old(sent) + [Sent(Everyone, Wire.StartTurn(turnPlayerId))])
    {
      var first := PickFirst(playerIds[|playerIds| - 1]);
      turnPlayerId, expected, this.turnTimeLimit, turnEndTime :=
        first, [DiscardSwap, CardAction.Draw, CardAction.QuickPlace], turnTimeLimit, now + turnTimeLimit;
      sent := sent + [Sent(Everyone, Wire.StartTurn(first))];
    }

    /** One pass of `Run`'s loop at time `now`, with the deadline looked at on every pass. With
        no packet waiting and the deadline passed, the host queues a ForceEndTurn from the
        server. A waiting packet is taken and handed to the handler for its kind; other kinds
        are skipped. With no packet waiting before the deadline the pass ends with nothing
        consumed, and the next pass looks at the deadline again (the source instead blocks in
        `GetNextPacket`; see `StepAsWritten`). */
    method Step(now: int) returns (consumed: Option<Reader.Processed>, r: Result<()>)
      requires Valid() && running
      modifies this, handManager, handManager.registry, handManager.deck, queue
      ensures Valid()
      ensures old(queue.waiting) == [] && now <= old(turnEndTime) ==>
        consumed == Option.None && r == Ok(()) && unchanged(this, handManager, handManager.registry, handManager.deck, queue)
      ensures old(queue.waiting) == [] && old(turnEndTime) < now ==>
        consumed == Some(Reader.Processed(ServerSender, Wire.ForceEndTurn)) && queue.waiting == []
      ensures old(queue.waiting) != [] ==>
        consumed == Some(old(queue.waiting[0])) && queue.waiting == old(queue.waiting[1..])
      ensures consumed.Some? && !Handled(consumed.value.message) ==>
        r == Ok(()) && unchanged(this, handManager, handManager.registry, handManager.deck)
      ensures consumed.Some? && (consumed.value.message.PassTurn? || consumed.value.message.ForceEndTurn?) ==>
        if old(playerIds) == [] then r == Err(InvalidOperation)
        else r == Ok(()) && turnPlayerId == Successor(old(playerIds), old(turnPlayerId))
      ensures running || Ended(sent)
    {
      var ready := queue.NextPacketReady();
      if !ready && turnEndTime < now {
        queue.ReadInternalPacket(Reader.Processed(ServerSender, Wire.ForceEndTurn));
        assert queue.waiting == [Reader.Processed(ServerSender, Wire.ForceEndTurn)];
      }
      ready := queue.NextPacketReady();
      if !ready {
        return Option.None, Ok(());
      }
      ghost var waiting := queue.waiting;
      var packet := queue.GetNextPacket();
      assert packet == waiting[0] && queue.waiting == waiting[1..];
      consumed := Some(packet);
      r := Dispatch(packet, now);
    }

    /** One pass of `Run`'s loop as the source has it, where the deadline is looked at only
        before `GetNextPacket`. With no packet waiting and the deadline not passed, the host
        enters `GetNextPacket` and spins there (`blocked`) until some packet is queued: while
        blocked, a pass at any time consumes nothing, so a turn player who sends nothing is
        never forced to end the turn. */
    method StepAsWritten(now: int, blocked: bool) returns (consumed: Option<Reader.Processed>, r: Result<()>, stillBlocked: bool)
      requires Valid() && running
      modifies this, handManager, handManager.registry, handManager.deck, queue
      ensures Valid()
      ensures old(queue.waiting) == [] && (blocked || now <= old(turnEndTime)) ==>
        && consumed == Option.None && r == Ok(()) && stillBlocked
        && unchanged(this, handManager, handManager.registry, handManager.deck, queue)
      ensures old(queue.waiting) == [] && !blocked && old(turnEndTime) < now ==>
        consumed == Some(Reader.Processed(ServerSender, Wire.ForceEndTurn)) && queue.waiting == [] && !stillBlocked
      ensures old(queue.waiting) != [] ==>
        consumed == Some(old(queue.waiting[0])) && queue.waiting == old(queue.waiting[1..]) && !stillBlocked
      ensures consumed.Some? && !Handled(consumed.value.message) ==>
        r == Ok(()) && unchanged(this, handManager, handManager.registry, handManager.deck)
      ensures consumed.Some? && (consumed.value.message.PassTurn? || consumed.value.message.ForceEndTurn?) ==>
        if old(playerIds) == [] then r == Err(InvalidOperation)
        else r == Ok(()) && turnPlayerId == Successor(old(playerIds), old(turnPlayerId))
      ensures running || Ended(sent)
    {
      var ready := queue.NextPacketReady();
      if !blocked && !ready && turnEndTime < now {
        queue.ReadInternalPacket(Reader.Processed(ServerSender, Wire.ForceEndTurn));
        assert queue.waiting == [Reader.Processed(ServerSender, Wire.ForceEndTurn)];
      }
      ready := queue.NextPacketReady();
      if !ready {
        return Option.None, Ok(()), true;
      }
      ghost var waiting := queue.waiting;
      var packet := queue.GetNextPacket();
      assert packet == waiting[0] && queue.waiting == waiting[1..];
      consumed, stillBlocked := Some(packet), false;
      r := Dispatch(packet, now);
    }

    /** `Run`'s switch: the packet goes to the handler for its kind. */
    method Dispatch(packet: Reader.Processed, now: int) returns (r: Result<()>)
      requires Valid() && running
      modifies this, handManager, handManager.registry, handManager.deck
      ensures Valid()
      ensures !Handled(packet.message) ==> r == Ok(()) && unchanged(this, handManager, handManager.registry, handManager.deck)
      ensures packet.message.PassTurn? || packet.message.ForceEndTurn? ==>
        if old(playerIds) == [] then r == Err(InvalidOperation)
        else r == Ok(()) && turnPlayerId == Successor(old(playerIds), old(turnPlayerId))
      ensures running || Ended(sent)
    {
      if packet.message.PassTurn? || packet.message.ForceEndTurn? {
        r := HandleEndTurn(now);
      } else if packet.message.Draw? || packet.message.Discard? || packet.message.Swap? || packet.message.Peek? {
        r := DispatchTurnAction(packet);
      } else {
        r := DispatchOther(packet);
      }
    }

    /** The kinds of `Run`'s switch that act on the turn player's cards: Draw, Discard, Swap
        and Peek. None of them ends the game. */
    method DispatchTurnAction(packet: Reader.Processed) returns (r: Result<()>)
      requires Valid()
      requires packet.message.Draw? || packet.message.Discard? || packet.message.Swap? || packet.message.Peek?
      modifies this, handManager, handManager.registry, handManager.deck
      ensures Valid() && running == old(running)
    {
      match packet.message {
        case Draw =>
          HandleDraw(packet.senderId);
          r := Ok(());
        case Discard =>
          r := HandleDiscard(packet.senderId);
        case Swap(cardId1, cardId2) =>
          r := HandleSwap(packet.senderId, cardId1, cardId2);
        case Peek(cardId) =>
          r := HandlePeek(packet.senderId, cardId);
      }
    }

    /** The remaining kinds of `Run`'s switch: a disconnection, a quick placement and a call;
        any other kind is skipped. None of them ends the game. */
    method DispatchOther(packet: Reader.Processed) returns (r: Result<()>)
      requires Valid()
      requires !(packet.message.PassTurn? || packet.message.ForceEndTurn? || packet.message.Draw? ||
        packet.message.Discard? || packet.message.Swap? || packet.message.Peek?)
      modifies this, handManager, handManager.registry, handManager.deck
      ensures Valid() && running == old(running)
      ensures !Handled(packet.message) ==> r == Ok(()) && unchanged(this, handManager, handManager.registry, handManager.deck)
    {
      match packet.message {
        case Disconnection(id) =>
          HandleDisconnection(id);
          r := Ok(());
        case QuickPlace(cardId, seenDiscard) =>
          r := HandleQuickPlace(packet.senderId, cardId, seenDiscard);
        case CallIt =>
          HandleCall(packet.senderId);
          r := Ok(());
        case _ =>
          r := Ok(());
      }
    }

    /** `Run`: starts the game, then handles packets until the game ends, and then resets the
        card registry. `clock[k]` is the time at the k-th pass; the model stops when the clock
        runs out. An exception escaping a handler ends `Run` with it. */
    method Run(turnTimeLimit: I32, start: int, clock: seq<int>) returns (r: Result<()>)
      requires Valid()
      modifies this, handManager, handManager.registry, handManager.deck, queue
      ensures old(playerIds) == [] ==> r == Err(InvalidOperation)
      ensures r.Ok? && running ==> Valid()
      ensures r.Ok? && !running ==>
        && Ended(sent)
        && handManager.registry.nextId == 0 && handManager.registry.numbers == map[]
        && handManager.registry.placeholders == []
    {
      r := StartGame(turnTimeLimit, start);
      if r.Err? {
        return;
      }
      var k := 0;
      while running && k < |clock|
        invariant Valid() && k <= |clock|
        invariant running || Ended(sent)
        decreases |clock| - k
      {
        var consumed, stepped := Step(clock[k]);
        if stepped.Err? {
          return stepped;
        }
        k := k + 1;
      }
      if !running {
        StaticCard.Reset(handManager.registry);
      }
    }
  }
}
