/** The client's game phases (`GameState`), shared by the input checks and the state machine. */
module GameStates {
  datatype GameState =
    | Initialisation   // connected, waiting for the game's settings
    | Waiting          // another player's turn
    | QuickPlace       // a card of one's own is selected to be placed on the discard pile
    | TurnStart        // one's own turn has started
    | DeckDraw         // a card has been drawn from the deck
    | DiscardSwap      // the top of the discard pile is to be swapped into the hand
    | PeekSelf         // a card of one's own may be looked at
    | PeekOther        // a card of another player may be looked at
    | SwapCardInHands  // two cards in hands are to be swapped
    | Scramble         // a hand is to be scrambled
    | TurnEnd          // the turn's draw is done and no card action is active
}
