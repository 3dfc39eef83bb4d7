/**
 * The client's `GameStateMachine`: the user's phase of the game as a state machine built with
 * the Stateless library. Its transitions are configured once, as data here (`Config`), and
 * `Fire` states the library's rules for using them:
 *   - only the transitions configured for the current state and the fired trigger count;
 *   - every one of their guards is evaluated, and an exception in a guard escapes;
 *   - none passing, or more than one, throws InvalidOperationException;
 *   - a dynamic destination is computed before the state is left, and may itself throw;
 *   - leaving a state runs its exit hook, which records where a quick placement began.
 */
module Machine {
  import opened Base
  import opened Cards
  import opened Hands
  import opened GameStates
  import CardValues
  import Validation

  type CardAction = CardValues.CardAction

  /** `Trigger`. */
  datatype Trigger = StartTurn | SelectionUpdate | DeckClick | DoCardAction | EndTurn | CancelAction

  /** A selected button: a card on the table (`FixedCard`, whose button id is its card's id), a
      hand (`HandView`), or any other button (whose id lies above every card id). */
  datatype Button = CardButton(cardId: CardId) | HandButton | OtherButton

  /** A trigger as the public `Fire*` methods fire it, with its parameter. */
  datatype Firing =
    | FireStartTurn(startPlayerId: Byte)
    | FireSelectionUpdate(inputs: seq<Button>)
    | FireDoCardAction(action: CardAction)
    | FireDeckClick
    | FireEndTurn
    | FireCancelAction

  function TriggerOf(f: Firing): Trigger
  {
    match f
    case FireStartTurn(_) => StartTurn
    case FireSelectionUpdate(_) => SelectionUpdate
    case FireDoCardAction(_) => DoCardAction
    case FireDeckClick => DeckClick
    case FireEndTurn => EndTurn
    case FireCancelAction => CancelAction
  }

  /** The guard of a configured transition. */
  datatype Guard =
    | Unguarded            // `Permit`, `PermitDynamic`
    | StartIsUser          // startId == _userId
    | StartIsOther         // startId != _userId
    | CardsRemain          // _handManager.RemainingCards > 0
    | DiscardSelected      // SelectedCardIsDiscardCard
    | QuickPlaceSelected   // IsQuickPlace
    | OwnCardSelected      // CardsAreInHand
    | OtherCardSelected    // CardsAreInOtherHand
    | TwoCardsSelected     // inputs.Count() == 2 && (CardsAreInHand || CardsAreInOtherHand)
    | HandSelected         // InputIsHand

  /** Where a configured transition leads: a fixed state, or one computed when it fires. */
  datatype Target =
    | To(state: GameState)
    | FinishQuickPlace         // PermitDynamic(.., QuickPlaceFinished)
    | FromCardAction           // PermitDynamic(.., CardActionToState)
    | ExitFromCardAction       // PermitDynamicIf(.., ExitStateFromCardAction, ..)

  /** A configured transition: its guard and where it leads. */
  datatype Permit = Permit(guard: Guard, target: Target)

  /** The constructor's configuration: the transitions each state configures for each
      trigger, in the order they are configured. */
  function Config(s: GameState, t: Trigger): seq<Permit>
  {
    match s
    case Initialisation =>
      if t == StartTurn then [Permit(StartIsUser, To(TurnStart)), Permit(StartIsOther, To(Waiting))] else []
    case Waiting =>
      if t == StartTurn then [Permit(StartIsUser, To(TurnStart))]
      else if t == SelectionUpdate then [Permit(QuickPlaceSelected, To(GameState.QuickPlace))]
      else []
    case QuickPlace =>
      if t == CancelAction then [Permit(Unguarded, FinishQuickPlace)]
      else if t == DoCardAction then [Permit(Unguarded, FromCardAction)]
      else []
    case TurnStart =>
      if t == EndTurn then [Permit(Unguarded, To(Waiting))]
      else if t == DeckClick then [Permit(CardsRemain, To(DeckDraw))]
      else if t == SelectionUpdate then
        [Permit(DiscardSelected, To(GameState.DiscardSwap)), Permit(QuickPlaceSelected, To(GameState.QuickPlace))]
      else []
    case DeckDraw =>
      if t == DoCardAction then [Permit(Unguarded, FromCardAction)] else []
    case DiscardSwap =>
      if t == CancelAction then [Permit(Unguarded, To(TurnStart))]
      else if t == DoCardAction then [Permit(Unguarded, FromCardAction)]
      else []
    case TurnEnd =>
      if t == EndTurn then [Permit(Unguarded, To(Waiting))]
      else if t == SelectionUpdate then [Permit(QuickPlaceSelected, To(GameState.QuickPlace))]
      else []
    case PeekSelf =>
      if t == CancelAction then [Permit(Unguarded, To(TurnEnd))]
      else if t == SelectionUpdate then [Permit(OwnCardSelected, ExitFromCardAction)]
      else []
    case PeekOther =>
      if t == CancelAction then [Permit(Unguarded, To(TurnEnd))]
      else if t == SelectionUpdate then [Permit(OtherCardSelected, ExitFromCardAction)]
      else []
    case SwapCardInHands =>
      if t == CancelAction then [Permit(Unguarded, To(TurnEnd))]
      else if t == SelectionUpdate then [Permit(TwoCardsSelected, ExitFromCardAction)]
      else []
    case Scramble =>
      if t == CancelAction then [Permit(Unguarded, To(TurnEnd))]
      else if t == SelectionUpdate then [Permit(HandSelected, ExitFromCardAction)]
      else []
  }

  /** The states configured with `OnExit(TrackQuickPlace)`, the ones a quick placement may
      start from. */
  predicate TracksQuickPlace(s: GameState)
  {
    s == Waiting || s == TurnStart || s == TurnEnd
  }

  /** A recorded entry point is a state a quick placement may start from; in QuickPlace one is
      recorded, and after a draw or the choice of a discard swap none is. */
  predicate ValidState(state: GameState, entry: Option<GameState>)
  {
    && (entry.Some? ==> TracksQuickPlace(entry.value))
    && (state == GameState.QuickPlace ==> entry.Some?)
    && (state == DeckDraw || state == GameState.DiscardSwap ==> entry.None?)
  }

  class GameStateMachine {
    /** `_handManager`: the client's copy of the table, read by the guards. */
    const handManager: HandManager
    /** `_userId`. */
    const userId: Byte
    /** The machine's state, `CurrentState`. */
    var state: GameState
    /** `_quickPlaceEntryPoint`: the state a quick placement began from. */
    var quickPlaceEntryPoint: Option<GameState>

    /** The state and the entry point agree (`ValidState`). */
    ghost predicate Valid()
      reads this
    {
      ValidState(state, quickPlaceEntryPoint)
    }

    /** `new GameStateMachine(handManager, userId)`: the machine starts in Initialisation. */
    constructor (handManager: HandManager, userId: Byte)
      ensures Valid() && this.handManager == handManager && this.userId == userId
      ensures state == Initialisation && quickPlaceEntryPoint == Option.None
    {
      this.handManager := handManager;
      this.userId := userId;
      state := Initialisation;
      quickPlaceEntryPoint := Option.None;
    }

    /** `CanFireCancelTrigger`: the states that configure CancelAction. */
    function CanFireCancelTrigger(): bool
      reads this
    {
      state in {GameState.QuickPlace, GameState.DiscardSwap, GameState.PeekSelf, GameState.PeekOther,
        SwapCardInHands, GameState.Scramble}
    }

    /** `InputIsHand`: exactly one button, and it is a hand. */
    static function InputIsHand(inputs: seq<Button>): bool
    {
      |inputs| == 1 && inputs[0].HandButton?
    }

    /** `CardsAreInOtherHand`: exactly one button, a card held by another player. */
    function CardsAreInOtherHand(inputs: seq<Button>): bool
      reads this, handManager
    {
      && |inputs| == 1 && inputs[0].CardButton?
      && exists p :: 0 <= p < |handManager.hands| && p != userId && inputs[0].cardId in handManager.hands[p]
    }

    /** `SelectedCardIsDiscardCard`: the first button is the top of the discard pile. */
    function SelectedCardIsDiscardCard(inputs: seq<Button>): bool
      reads this, handManager
    {
      |inputs| > 0 && inputs[0].CardButton? && inputs[0].cardId == handManager.topDiscardCardId
    }

    /** `CardsAreInHand`: some selected card is in the user's hand. Looking up the user's hand
        throws ArgumentException when the user has none. */
    function CardsAreInHand(inputs: seq<Button>): Result<bool>
      reads this, handManager
    {
      var hand := handManager.GetCardsInHand(userId);
      if hand.Err? then Err(Argument)
      else Ok(exists i :: 0 <= i < |inputs| && inputs[i].CardButton? && inputs[i].cardId in hand.value)
    }

    /** `IsQuickPlace`: one button, cards left in the deck, and the card is the user's. */
    function IsQuickPlace(inputs: seq<Button>): Result<bool>
      reads this, handManager, handManager.deck
    {
      if |inputs| == 1 && handManager.deck.Remaining() > 0 then CardsAreInHand(inputs) else Ok(false)
    }

    /** A guard evaluated on the fired parameter. */
    function GuardHolds(g: Guard, f: Firing): Result<bool>
      reads this, handManager, handManager.deck
    {
      var inputs := if f.FireSelectionUpdate? then f.inputs else [];
      match g
      case Unguarded => Ok(true)
      case StartIsUser => Ok(f.FireStartTurn? && f.startPlayerId == userId)
      case StartIsOther => Ok(f.FireStartTurn? && f.startPlayerId != userId)
      case CardsRemain => Ok(handManager.deck.Remaining() > 0)
      case DiscardSelected => Ok(SelectedCardIsDiscardCard(inputs))
      case QuickPlaceSelected => IsQuickPlace(inputs)
      case OwnCardSelected => CardsAreInHand(inputs)
      case OtherCardSelected => Ok(CardsAreInOtherHand(inputs))
      case TwoCardsSelected =>
        if |inputs| != 2 then Ok(false)
        else
          var own := CardsAreInHand(inputs);
          if own.Err? || own.value then own else Ok(CardsAreInOtherHand(inputs))
      case HandSelected => Ok(InputIsHand(inputs))
    }

    /** The transitions whose guards pass, in order. Every guard is evaluated, so the first one
        that throws decides the outcome. */
    function Passing(permits: seq<Permit>, f: Firing): (r: Result<seq<Permit>>)
      reads this, handManager, handManager.deck
      ensures r.Ok? ==> forall p :: p in r.value ==> p in permits && GuardHolds(p.guard, f) == Ok(true)
    {
      if permits == [] then Ok([])
      else
        var held := GuardHolds(permits[0].guard, f);
        var rest := Passing(permits[1..], f);
        if held.Err? then Err(held.error)
        else if rest.Err? then rest
        else Ok(if held.value then [permits[0]] + rest.value else rest.value)
    }

    /** `QuickPlaceFinished` as a value: the recorded entry point, which it clears; the cast of
        an empty `GameState?` throws InvalidOperationException. */
    ghost function Finished(): Result<(GameState, Option<GameState>)>
      reads this
    {
      if quickPlaceEntryPoint.None? then Err(InvalidOperation) else Ok((quickPlaceEntryPoint.value, Option.None))
    }

    /** `ExitStateFromCardAction`: back where a quick placement began, else TurnEnd. */
    function ExitStateFromCardAction(): GameState
      reads this
    {
      if quickPlaceEntryPoint.None? then TurnEnd else quickPlaceEntryPoint.value
    }

    /** Where a chosen transition leads, with the entry point once the destination is known. */
    ghost function Destination(t: Target, f: Firing): Result<(GameState, Option<GameState>)>
      reads this
    {
      match t
      case To(s) => Ok((s, quickPlaceEntryPoint))
      case ExitFromCardAction => Ok((ExitStateFromCardAction(), quickPlaceEntryPoint))
      case FinishQuickPlace => Finished()
      case FromCardAction =>
        if !f.FireDoCardAction? then Err(NotImplemented)
        else match f.action
          case None => Finished()
          case Swap => Ok((SwapCardInHands, quickPlaceEntryPoint))
          case PeekSelf => Ok((GameState.PeekSelf, quickPlaceEntryPoint))
          case PeekOther => Ok((GameState.PeekOther, quickPlaceEntryPoint))
          case Scramble => Ok((GameState.Scramble, quickPlaceEntryPoint))
          case _ => Err(NotImplemented)
    }

    /** Taking a transition to `t`: its destination, computed first, then the exit hook of a
        state a quick placement may start from, which records that state when the destination is
        QuickPlace and clears the record otherwise. */
    ghost function Taken(t: Target, f: Firing): Result<(GameState, Option<GameState>)>
      reads this
    {
      var next := Destination(t, f);
      if next.Err? || !TracksQuickPlace(state) then next
      else
        var dest := next.value.0;
        Ok((dest, if dest == GameState.QuickPlace then Some(state) else Option.None))
    }

    /** What firing `f` does: the new state and entry point, or the exception thrown. */
    ghost function Outcome(f: Firing): Result<(GameState, Option<GameState>)>
      reads this, handManager, handManager.deck
    {
      var held := Passing(Config(state, TriggerOf(f)), f);
      if held.Err? then Err(held.error)
      else if |held.value| != 1 then Err(InvalidOperation)
      else Taken(held.value[0].target, f)
    }

    /** `QuickPlaceFinished`. */
    method QuickPlaceFinished() returns (r: Result<GameState>)
      modifies this
      ensures old(Finished()).Err? ==> r == Err(InvalidOperation) && unchanged(this)
      ensures old(Finished()).Ok? ==>
        && r == Ok(old(Finished()).value.0)
        && state == old(state) && quickPlaceEntryPoint == old(Finished()).value.1
    {
      if quickPlaceEntryPoint.None? {
        return Err(InvalidOperation);
      }
      var s := quickPlaceEntryPoint.value;
      quickPlaceEntryPoint := Option.None;
      r := Ok(s);
    }

    /** `CardActionToState`: the phase of the card action; no action ends a quick placement; any
        other action throws NotImplementedException. */
    method CardActionToState(cardAction: CardAction) returns (r: Result<GameState>)
      modifies this
      ensures var d := old(Destination(FromCardAction, FireDoCardAction(cardAction)));
        && (d.Err? ==> r == Err(d.error) && unchanged(this))
        && (d.Ok? ==> r == Ok(d.value.0) && state == old(state) && quickPlaceEntryPoint == d.value.1)
    {
      match cardAction {
        case None =>
          r := QuickPlaceFinished();
        case Swap =>
          r := Ok(SwapCardInHands);
        case PeekSelf =>
          r := Ok(GameState.PeekSelf);
        case PeekOther =>
          r := Ok(GameState.PeekOther);
        case Scramble =>
          r := Ok(GameState.Scramble);
        case _ =>
          r := Err(NotImplemented);
      }
    }

    /** `TrackQuickPlace`, run on leaving a state it is hooked to: records the source when the
        destination is QuickPlace and clears the record otherwise. */
    method TrackQuickPlace(source: GameState, destination: GameState)
      modifies this
      ensures quickPlaceEntryPoint == if destination == GameState.QuickPlace then Some(source) else Option.None
      ensures state == old(state)
    {
      quickPlaceEntryPoint := if destination == GameState.QuickPlace then Some(source) else Option.None;
    }

    /** The state and entry point a configured transition may lead to keep the invariant. */
    lemma TakenKeepsValid(p: Permit, f: Firing)
      requires Valid() && p in Config(state, TriggerOf(f))
      ensures Taken(p.target, f).Ok? ==> ValidState(Taken(p.target, f).value.0, Taken(p.target, f).value.1)
    {
    }

    /** Takes the transition to `t`. */
    method Take(t: Target, f: Firing) returns (r: Result<()>)
      requires t.FromCardAction? ==> f.FireDoCardAction?
      modifies this
      ensures old(Taken(t, f)).Err? ==> r == Err(old(Taken(t, f)).error) && unchanged(this)
      ensures old(Taken(t, f)).Ok? ==> r == Ok(()) && (state, quickPlaceEntryPoint) == old(Taken(t, f)).value
    {
      var source := state;
      var destination: GameState;
      match t {
        case To(s) =>
          destination := s;
        case ExitFromCardAction =>
          destination := ExitStateFromCardAction();
        case FinishQuickPlace =>
          var d := QuickPlaceFinished();
          if d.Err? {
            return Err(d.error);
          }
          destination := d.value;
        case FromCardAction =>
          var d := CardActionToState(f.action);
          if d.Err? {
            return Err(d.error);
          }
          destination := d.value;
      }
      if TracksQuickPlace(source) {
        TrackQuickPlace(source, destination);
      }
      state := destination;
      r := Ok(());
    }

    /** `Fire`, as the `Fire*` methods call it: the one transition whose guard passes is taken;
        none, several, or a guard that throws leave the machine as it was. */
    method Fire(f: Firing) returns (r: Result<()>)
      requires Valid()
      modifies this
      ensures Valid()
      ensures old(Outcome(f)).Err? ==> r == Err(old(Outcome(f)).error) && unchanged(this)
      ensures old(Outcome(f)).Ok? ==> r == Ok(()) && (state, quickPlaceEntryPoint) == old(Outcome(f)).value
    {
      var held := Passing(Config(state, TriggerOf(f)), f);
      if held.Ok? && |held.value| == 1 {
        var permit := held.value[0];
        TakenKeepsValid(permit, f);
        r := Take(permit.target, f);
      } else {
        r := Err(if held.Err? then held.error else InvalidOperation);
      }
    }

    /** A trigger the state does not configure throws; one it configures once is taken exactly
        when its guard passes. */
    lemma OutcomeByConfig(f: Firing)
      ensures Config(state, TriggerOf(f)) == [] ==> Outcome(f) == Err(InvalidOperation)
      ensures |Config(state, TriggerOf(f))| == 1 ==>
        var p := Config(state, TriggerOf(f))[0];
        Outcome(f) == Guarded(GuardHolds(p.guard, f), Taken(p.target, f))
    {
      var c := Config(state, TriggerOf(f));
      if |c| == 1 {
        assert c[1..] == [] && [c[0]] + [] == [c[0]];
        var g := GuardHolds(c[0].guard, f);
        assert Passing(c, f) == if g.Err? then Err(g.error) else Ok(if g.value then [c[0]] else []);
      }
    }

    /** With two configured transitions, both guards are evaluated, the first's first. */
    lemma PassingPair(p: Permit, q: Permit, f: Firing)
      ensures var g, h := GuardHolds(p.guard, f), GuardHolds(q.guard, f);
        Passing([p, q], f) ==
          if g.Err? then Err(g.error)
          else if h.Err? then Err(h.error)
          else Ok((if g.value then [p] else []) + (if h.value then [q] else []))
    {
      assert [p, q][1..] == [q];
      assert [q][1..] == [];
      assert Passing([], f) == Ok([]);
      var h := GuardHolds(q.guard, f);
      assert Passing([q], f) == if h.Err? then Err(h.error) else Ok(if h.value then [q] + [] else []);
      assert [q] + [] == [q];
      assert [p] + [q] == [p, q];
      assert [p] + [] == [p];
      var none: seq<Permit> := [];
      assert none + [q] == [q] && none + none == none;
    }

    /** StartTurn: before the game it leads to TurnStart for the user and to Waiting for anyone
        else; while waiting only the user's own turn is accepted; elsewhere it throws. */
    lemma StartTurnRule(id: Byte)
      ensures Outcome(FireStartTurn(id)) ==
        if state == Initialisation then Ok((if id == userId then TurnStart else Waiting, quickPlaceEntryPoint))
        else if state == Waiting && id == userId then Ok((TurnStart, Option.None))
        else Err(InvalidOperation)
    {
      if state == Initialisation {
        PassingPair(Config(state, StartTurn)[0], Config(state, StartTurn)[1], FireStartTurn(id));
      } else {
        OutcomeByConfig(FireStartTurn(id));
      }
    }

    /** DeckClick: open only at the start of the turn while the deck has cards. */
    lemma DeckClickRule()
      ensures Outcome(FireDeckClick) ==
        if state == TurnStart && handManager.deck.Remaining() > 0 then Ok((DeckDraw, Option.None))
        else Err(InvalidOperation)
    {
      OutcomeByConfig(FireDeckClick);
    }

    /** EndTurn: open at the start and at the end of the turn, and leads to Waiting. */
    lemma EndTurnRule()
      ensures Outcome(FireEndTurn) ==
        if state == TurnStart || state == TurnEnd then Ok((Waiting, Option.None)) else Err(InvalidOperation)
    {
      OutcomeByConfig(FireEndTurn);
    }

    /** CancelAction: a quick placement returns where it began, a discard swap to the start of
        the turn, a card action to the end of the turn; elsewhere it throws. So
        `CanFireCancelTrigger` answers exactly whether cancelling succeeds. */
    lemma CancelRule()
      requires Valid()
      ensures Outcome(FireCancelAction) ==
        if state == GameState.QuickPlace then Ok((quickPlaceEntryPoint.value, Option.None))
        else if state == GameState.DiscardSwap then Ok((TurnStart, Option.None))
        else if state in {GameState.PeekSelf, GameState.PeekOther, SwapCardInHands, GameState.Scramble} then
          Ok((TurnEnd, quickPlaceEntryPoint))
        else Err(InvalidOperation)
      ensures CanFireCancelTrigger() <==> Outcome(FireCancelAction).Ok?
    {
      OutcomeByConfig(FireCancelAction);
    }

    /** DoCardAction: accepted after a quick placement, a draw or a discard swap. No action
        ends a quick placement where it began, and after a draw or a discard swap throws, since
        no entry point is recorded there; the four actions with a phase lead to it, keeping the
        entry point; any other action throws NotImplementedException. */
    lemma CardActionRule(a: CardAction)
      requires Valid()
      ensures state !in {GameState.QuickPlace, DeckDraw, GameState.DiscardSwap} ==>
        Outcome(FireDoCardAction(a)) == Err(InvalidOperation)
      ensures state in {GameState.QuickPlace, DeckDraw, GameState.DiscardSwap} ==>
        Outcome(FireDoCardAction(a)) ==
          match a
          case None =>
            if state == GameState.QuickPlace then Ok((quickPlaceEntryPoint.value, Option.None))
            else Err(InvalidOperation)
          case Swap => Ok((SwapCardInHands, quickPlaceEntryPoint))
          case PeekSelf => Ok((GameState.PeekSelf, quickPlaceEntryPoint))
          case PeekOther => Ok((GameState.PeekOther, quickPlaceEntryPoint))
          case Scramble => Ok((GameState.Scramble, quickPlaceEntryPoint))
          case _ => Err(NotImplemented)
    {
      OutcomeByConfig(FireDoCardAction(a));
    }

    /** A guard's verdict as the outcome of a transition it alone guards: its exception escapes,
        and when it fails no transition is permitted. */
    static function Guarded(held: Result<bool>, then_: Result<(GameState, Option<GameState>)>): Result<(GameState, Option<GameState>)>
    {
      if held.Err? then Err(held.error) else if held.value then then_ else Err(InvalidOperation)
    }

    /** SelectionUpdate in a card action's phase: the action's selection finishes it, back where
        a quick placement began or else at the end of the turn. */
    lemma SelectionFinishesAction(inputs: seq<Button>)
      requires state in {GameState.PeekSelf, GameState.PeekOther, SwapCardInHands, GameState.Scramble}
      ensures var done := Ok((ExitStateFromCardAction(), quickPlaceEntryPoint));
        Outcome(FireSelectionUpdate(inputs)) ==
          match state
          case PeekSelf => Guarded(CardsAreInHand(inputs), done)
          case PeekOther => Guarded(Ok(CardsAreInOtherHand(inputs)), done)
          case SwapCardInHands => Guarded(GuardHolds(TwoCardsSelected, FireSelectionUpdate(inputs)), done)
          case Scramble => Guarded(Ok(InputIsHand(inputs)), done)
    {
      OutcomeByConfig(FireSelectionUpdate(inputs));
    }

    /** A swap's selection must include one of the user's own cards: the test for another
        player's card wants exactly one selected card, and a swap wants two. */
    lemma SwapNeedsOwnCard(inputs: seq<Button>)
      requires state == SwapCardInHands
      requires CardsAreInHand(inputs) != Ok(true)
      ensures Outcome(FireSelectionUpdate(inputs)).Err?
    {
      SelectionFinishesAction(inputs);
    }

    /** SelectionUpdate between turns or at the end of one: a quick placement begins, recording
        where, when one of the user's cards alone is selected and the deck has cards. */
    lemma QuickPlaceRule(inputs: seq<Button>)
      requires state == Waiting || state == TurnEnd
      ensures Outcome(FireSelectionUpdate(inputs)) ==
        Guarded(IsQuickPlace(inputs), Ok((GameState.QuickPlace, Some(state))))
    {
      OutcomeByConfig(FireSelectionUpdate(inputs));
    }

    /** SelectionUpdate at the start of the turn: the top of the discard pile starts a discard
        swap, one of the user's cards a quick placement. The top of the discard pile is in no
        hand, so the two never both apply. */
    lemma TurnStartSelectionRule(inputs: seq<Button>)
      requires handManager.Valid() && state == TurnStart
      ensures var q := IsQuickPlace(inputs);
        Outcome(FireSelectionUpdate(inputs)) ==
          if q.Err? then Err(q.error)
          else if SelectedCardIsDiscardCard(inputs) then Ok((GameState.DiscardSwap, Option.None))
          else if q.value then Ok((GameState.QuickPlace, Some(TurnStart)))
          else Err(InvalidOperation)
    {
      var q := IsQuickPlace(inputs);
      if q == Ok(true) && SelectedCardIsDiscardCard(inputs) {
        assert false;
      }
      PassingPair(Config(state, SelectionUpdate)[0], Config(state, SelectionUpdate)[1], FireSelectionUpdate(inputs));
    }
  }

  /** The validator offers the deck exactly when the machine accepts a click on it. */
  lemma DrawCheckAgrees(v: Validation.InputValidator, m: GameStateMachine)
    requires v.handManager == m.handManager
    ensures v.CheckCanDraw(m.state) <==> m.Outcome(FireDeckClick).Ok?
  {
    m.DeckClickRule();
  }

  /** The validator offers passing exactly when the machine accepts ending the turn. */
  lemma PassCheckAgrees(v: Validation.InputValidator, m: GameStateMachine)
    ensures v.CheckCanPass(m.state) <==> m.Outcome(FireEndTurn).Ok?
  {
    m.EndTurnRule();
  }

  /** Before a call, a card the validator offers, selected alone, is accepted: between turns
      and at the end of one it starts a quick placement while the deck has cards, and while
      peeking at one's own cards it finishes the peek. With the deck empty the validator still
      offers the user's cards between turns and at a turn's end, and the machine refuses them. */
  lemma OfferedCardAccepted(v: Validation.InputValidator, m: GameStateMachine, currentPlayerId: Byte, c: CardId)
    requires v.Valid() && !v.isCalled && v.handManager == m.handManager
    requires m.userId < |m.handManager.hands|
    requires v.ValidCardIds(m.state, m.userId, currentPlayerId).Ok?
    requires c in v.ValidCardIds(m.state, m.userId, currentPlayerId).value
    ensures (m.state == Waiting || m.state == TurnEnd) && m.handManager.deck.Remaining() > 0 ==>
      m.Outcome(FireSelectionUpdate([CardButton(c)])) == Ok((GameState.QuickPlace, Some(m.state)))
    ensures (m.state == Waiting || m.state == TurnEnd) && m.handManager.deck.Remaining() == 0 ==>
      m.Outcome(FireSelectionUpdate([CardButton(c)])) == Err(InvalidOperation)
    ensures m.state == GameState.PeekSelf ==>
      m.Outcome(FireSelectionUpdate([CardButton(c)])) == Ok((m.ExitStateFromCardAction(), m.quickPlaceEntryPoint))
  {
    Validation.OwnCardsBeforeCall(v, m.userId, currentPlayerId);
    var inputs := [CardButton(c)];
    if m.state in {Waiting, TurnEnd, GameState.PeekSelf} {
      assert m.CardsAreInHand(inputs) == Ok(true) by {
        assert inputs[0].cardId in m.handManager.hands[m.userId];
      }
    }
    if m.state == Waiting || m.state == TurnEnd {
      m.QuickPlaceRule(inputs);
    } else if m.state == GameState.PeekSelf {
      m.SelectionFinishesAction(inputs);
    }
  }
}
