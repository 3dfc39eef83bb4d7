# Eliminator, modelled in Dafny

Eliminator is a networked card game. Each player holds a hand of face-down cards. On a turn a
player draws from the deck or takes the discard, swaps it into a hand or discards it, and a
discarded card may trigger an action: peek at one of your own cards (7, 8), peek at someone
else's (9, 10), swap two cards between hands (jack, queen) or scramble a hand (red king). Any
player may "quick place" a card that matches the top of the discard pile. Quick placing a
card that does not match costs a penalty card. A player may call the game. Every other player
then has one more turn, and the lowest hand score wins.

This project models the core of the server and the rule checks of the client:

- `card_value.dfy` (module `CardValues`): the 55 card values (back, four suits of thirteen,
  two jokers), their faces, and `GetCardAction`, which tells what a discarded card lets the
  player do.
- `registry.dfy` (module `Cards`): the card registry of `CardCounter`. It allocates card ids
  and maps each id to a value. Placeholder ids (the held card and the top of the discard pile)
  are the only ones that may hold no value.
- `static_card.dfy` (module `StaticCard`): the process-wide registry behind `Card`. It is
  stated over the same `Registry` class, so both files refine one model.
- `deck.dfy` (module `Decks`): the shuffled `Deck` (a stack of values) and the client's
  counting `BlankDeck`.
- `hand_manager.dfy` (module `Hands`): the `HandManager`. It deals, draws, discards, performs
  the four kinds of swap, scrambles, quick places, punishes and scores.
- `codec.dfy` (module `Wire`): the packet format, as a message datatype, an encoder and a
  cursor-based decoder, with the round trip proved.
- `packet_writer.dfy` (module `Writer`) and `packet_reader.dfy` (module `Reader`): the
  imperative `PacketWriter` and `PacketReader`, each proved against the codec, and the FIFO
  queue of processed packets.
- `turns.dfy` (module `Turns`): turn order and the players still free after a call, as shared
  by server and client.
- `host.dfy` (module `Host`): the server's `HostGameManager`. It covers the request handlers,
  the dispatch loop with its turn timeout, and an outbound log of `(recipients, message)`.
- `input_validator.dfy` (module `Validation`): the client's `InputValidator`. It decides which
  cards are selectable and whether draw, pass and call are allowed.
- `game_state.dfy` (module `GameStates`) and `state_machine.dfy` (module `Machine`): the
  client's `GameStateMachine`. It is a transition table over (game state, trigger) with
  guards, computed destinations, exit hooks and the quick-place entry point. The semantics of
  the state-machine library it is built on are written out:
  - only the permits configured for the current state and the fired trigger count;
  - every guard is evaluated, in configuration order, and an exception in a guard escapes;
  - no passing permit, or more than one, throws `InvalidOperationException`;
  - a computed destination is evaluated before the state changes, so an exception there
    leaves the state unchanged;
  - leaving Waiting, TurnStart or TurnEnd runs the quick-place tracking hook before the new
    state is entered.

Fixed-width integers are explicit. Ids and values are bytes, card ids are 16-bit with
wrap-around, and `int` fields and the wire's `Int32` wrap to 32 bits. Exceptions become `Err`
results naming the .NET exception. A `Debug.Assert` inside a component is a `requires`. Where
the server can reach such an assertion without a guard, the assertion becomes an
`AssertionFailed` result.

Where the code and the game's design disagree, the model follows the code. The host keeps the
written behaviour of `HandleSwap`, `HandleEndTurn` and `GetNonLockedPlayers`. The intended
behaviour is defined beside it and compared under "## Findings". The same goes for the packet
writer's string prefix. The round trips are proved for messages whose names are ASCII, because
only there does the written prefix agree with the byte count the reader reads. The `Run` loop
uses the step that looks at the deadline on every pass.

Other behaviours of the written code that the model keeps:

- `SwapWithHeldCard` searches only the first hand, and `SwapWithDiscard` only the last one,
  because its loop has no `break`.
- `Card` is a struct, so a card that is not found is the card with id 0, not null.
- `SwapWithDiscard` leaves the hand card's value unchanged. It pushes that value and then
  copies the new top of the discard back into the card.
- `SwapBothPlaceholders` does not refresh the top-discard placeholder.
- On the client, a swap selection needs at least one of the user's own cards.
- `DoCardAction(None)` after a draw or a discard swap throws, because neither state is a
  quick-place entry point.

## Model

| member | source | states |
|---|---|---|
| CardValues.ValueOf | Eliminator/Enums/CardValue.cs:4-61 | the enum value of a face (suit block of 13 from 1, jokers 53 and 54, back 0) is at most 54 |
| CardValues.FaceOf | Eliminator/Enums/CardValue.cs:4-61 | every value 0..54 names a valid face |
| CardValues.FaceRoundTrip | Eliminator/Enums/CardValue.cs:4-61 | value to face to value is the identity on 0..54, so the enum values are contiguous |
| CardValues.ValueRoundTrip | Eliminator/Enums/CardValue.cs:4-61 | face to value to face is the identity on valid faces |
| CardValues.GetCardAction | Eliminator/Enums/CardValue.cs:65-96 | defined for every value but `Back` (the assert), and only ever None, PeekSelf, PeekOther, Swap or Scramble |
| CardValues.GetCardActionByFace | Eliminator/Enums/CardValue.cs:65-96 | the action depends only on the face: red king Scramble, jack/queen Swap, 9/10 PeekOther, 7/8 PeekSelf, others None |
| CardValues.ScrambleIsRedKing | Eliminator/Enums/CardValue.cs:68-74 | within the deck Scramble is returned exactly for the hearts and diamonds kings, 26 and 39 |
| Cards.Registry.constructor | Eliminator/CardCounter.cs:15-16 | a new counter starts at id 0 with no values and no placeholders |
| Cards.Registry.GetNumber | Eliminator/CardCounter.cs:43-49 | the stored value for a known id, InvalidOperation for an unknown one |
| Cards.Registry.MakeNewCard | Eliminator/CardCounter.cs:18-22 | stores the value under the next id, returns the card whose `Number` reads it, advances the id with 16-bit wrap; a reused id throws and changes nothing |
| Cards.Registry.ChangeNumber | Eliminator/CardCounter.cs:24-27 | overwrites only that id's value |
| Cards.Registry.ChangePlaceholderNumber | Eliminator/CardCounter.cs:34-41 | asserts the id is a placeholder and writes a possibly absent value to it alone |
| Cards.Registry.AddPlaceholder | Eliminator/CardCounter.cs:55-60 | registers the next id as a placeholder with no value and advances the shared counter |
| Cards.CounterCard.ChangeNumber | Eliminator/CardCounter.cs:65-80 | a counter card's `ChangeNumber` delegates to its counter and changes only its own entry |
| StaticCard.Card.Number | Eliminator/Card.cs:76-82 | a card's number is read from the registry each time |
| StaticCard.Card.ChangeNumber | Eliminator/Card.cs:71-74 | overwrites only this card's entry |
| StaticCard.NewCard | Eliminator/Card.cs:22-26 | takes the current id, advances the counter, then stores the value; a reused id throws after the counter moved |
| StaticCard.AddPlaceholder | Eliminator/Card.cs:42-47 | registers the next id as a placeholder with an absent value |
| StaticCard.ChangePlaceholderNumber | Eliminator/Card.cs:54-61 | asserts the id is a placeholder and may write null |
| StaticCard.GetNumber | Eliminator/Card.cs:63-69 | the stored value, or InvalidOperation for an id never allocated |
| StaticCard.Reset | Eliminator/Card.cs:31-36 | ids restart at 0; placeholders and values are emptied |
| StaticCard.AllocateTwo | Eliminator/Card.cs:22-26 | two cards made in a row get consecutive ids and each reads back its own value |
| Decks.PushOneSet | Eliminator/Deck.cs:21-28 | one pass of the construction loop pushes the values 1..54 in order |
| Decks.Deck.constructor | Eliminator/Deck.cs:16-32 | `StandardSizeMultiple` is the amount, each value 1..54 occurs exactly `amount` times, `Back` never, and `Remaining` is 54 times the amount |
| Decks.Deck.Draw | Eliminator/Deck.cs:37-39 | returns the top value and removes it, so `Remaining` drops by one; an empty deck throws InvalidOperation |
| Decks.OneSetCount | Eliminator/Deck.cs:23-27 | one set holds each value 1..54 once and `Back` never |
| Decks.SetsCount | Eliminator/Deck.cs:21-28 | `amount` sets hold each value 1..54 exactly `amount` times, 54 times the amount in all |
| Decks.SingleSetDistinct | Eliminator.Test/DeckTests.cs:36-46 | a shuffled single deck yields 54 distinct values, all in 1..54 |
| Decks.DistinctCount | Eliminator/Deck.cs:23-27 | in a sequence without repeats each value occurs at most once |
| Decks.BlankDeck.constructor | Eliminator/BlankDeck.cs:8-12 | `Remaining` is 54 times the amount, wrapped to 32 bits, and `StandardSizeMultiple` is the amount |
| Decks.BlankDeck.Draw | Eliminator/BlankDeck.cs:14-23 | always returns `Back` and decrements `Remaining`; at 0 it throws and stays at 0, so it never goes negative |
| Hands.HandManager.constructor | Eliminator/HandManager.cs:39-65 | allocates the held and then the discard placeholder, both empty, and deals each player a block of consecutive ids whose values are the deck's top cards in drawing order; the deck shrinks by players times cards |
| Hands.DealTable | Eliminator/HandManager.cs:45-61 | the placeholders and the dealt hands take the next ids in order, and each dealt id holds the deck card drawn for it |
| Hands.DealAll | Eliminator/HandManager.cs:52-61 | the deal loop gives player p the ids `first + p*s ..` and draws exactly players times s cards |
| Hands.DealHand | Eliminator/HandManager.cs:55-59 | one hand of `count` consecutive fresh ids, each holding the card drawn for it |
| Hands.DealOne | Eliminator/HandManager.cs:57 | one card from the deck gets the next id |
| Hands.DealtHands | Eliminator/HandManager.cs:52-61 | hands dealt as consecutive blocks share no card, and every dealt id lies in the dealt range |
| Hands.DealtAfterPlaceholders | Eliminator/HandManager.cs:45-61 | after the two placeholders, the registry holds exactly the old ids plus the new range, and every dealt id holds its deck card |
| Hands.HandManager.ToDiscard | Eliminator/HandManager.cs:71-75 | pushes the value on the discard pile and makes it the top-discard placeholder's value; nothing else changes |
| Hands.HandManager.DrawCard | Eliminator/HandManager.cs:81-84 | the held placeholder takes the popped deck value; an empty deck throws and changes nothing |
| Hands.HandManager.DiscardHeldCard | Eliminator/HandManager.cs:90-96 | asserts a card is held, pushes it, sets the top discard to it and clears the held card |
| Hands.HandManager.PlayerIds | Eliminator/HandManager.cs:102-105 | the player ids are 0 .. players-1 in order |
| Hands.HandManager.GetCardsInHand | Eliminator/HandManager.cs:113-118 | a player's hand, or Argument for an unknown player |
| Hands.HandManager.SwapPath | Eliminator/HandManager.cs:128-180 | each pair of ids takes exactly one of the four paths, decided by which placeholders it names |
| Hands.HandManager.Swap | Eliminator/HandManager.cs:128-180 | the result, the discard pile and the card values are those of `SwapOutcome`, path by path: an exchange of two hand cards found in some hand, the held value pushed and the held card emptied, the last hand's card pushed onto the discard, or the held value exchanged with the first hand's card; on an exception nothing changes; hands never change |
| Hands.HandManager.SwapNoPlaceholders | Eliminator/HandManager.cs:258-286 | exchanges the two cards' values when both are in hands, ids and hands unchanged; otherwise throws and changes nothing |
| Hands.HandManager.SwapWithHeldCard | Eliminator/HandManager.cs:186-212 | the first hand's card gets the held value and the held placeholder its old value; no held card or a card not found throws |
| Hands.HandManager.SwapWithDiscard | Eliminator/HandManager.cs:218-239 | looks in the last hand; pushes the card's value and makes it the top discard, leaving the card's value unchanged |
| Hands.HandManager.SwapBothPlaceholders | Eliminator/HandManager.cs:244-250 | asserts a card is held, pushes it onto the discard pile and clears the held card; the top-discard placeholder keeps its value |
| Hands.HandManager.Scramble | Eliminator/HandManager.cs:296-312 | an unknown player throws; otherwise the hand's ids stay and its values are permuted, and every other card keeps its value |
| Hands.HandManager.WriteBack | Eliminator/HandManager.cs:307-311 | the write-back loop gives the hand's i-th card the i-th shuffled value and touches nothing else |
| Hands.HandManager.HandValues | Eliminator/HandManager.cs:391-407 | the values of a hand's cards, one per card, in hand order |
| Hands.HandManager.HandValuesAre | Eliminator/HandManager.cs:391-407 | values read card by card are the hand's values |
| Hands.HandManager.QuickPlace | Eliminator/HandManager.cs:322-357 | a card in no hand throws; a value that differs from the top discard returns false and changes nothing; otherwise the value is pushed, the card leaves its first holding hand, and the result is true |
| Hands.HandManager.FindHolder | Eliminator/HandManager.cs:327-343 | the search returns the first hand holding the card |
| Hands.HandManager.RemoveCard | Eliminator/HandManager.cs:355-356 | removes the card's first occurrence from its hand; it is then in no hand |
| Hands.FirstHolder | Eliminator/HandManager.cs:327-343 | the first hand holding the id, or none when no hand holds it |
| Hands.FirstHolderIs | Eliminator/HandManager.cs:327-343 | any hand that holds the id and has no earlier holder is the first holder |
| Hands.FirstOrDefault | Eliminator/HandManager.cs:190-197 | a lookup in a hand yields the id if present and card 0 otherwise, never null |
| Hands.RemoveFirst | Eliminator/HandManager.cs:356 | removes exactly the first occurrence and keeps the order of the rest |
| Hands.DistinctRemove | Eliminator/HandManager.cs:356 | removing a card keeps every card in at most one hand |
| Hands.DistinctAppend | Eliminator/HandManager.cs:366-376 | appending a fresh id keeps every card in at most one hand |
| Hands.HandManager.PunishPlayer | Eliminator/HandManager.cs:366-376 | an unknown hand throws; otherwise it appends one new card with a fresh id holding the next deck value and returns that id |
| Hands.HandManager.HandSum | Eliminator/HandManager.cs:395-407 | the scoring loop computes the hand's score |
| Hands.HandManager.CalculateHandValues | Eliminator/HandManager.cs:387-414 | one (player, score) entry per hand, in player order |
| Hands.CardScoreByFace | Eliminator/HandManager.cs:395-407 | a joker scores -2, a red king 13, a black king 0, any other card its rank |
| Hands.HandScoreAppend | Eliminator/HandManager.cs:395-407 | the score of two hands together is the sum of their scores |
| Hands.HandScoreRemove | Eliminator/HandManager.cs:395-407 | removing a card lowers the score by that card's score |
| Hands.HandScoreOne | Eliminator/HandManager.cs:395-407 | a one-card hand scores that card |
| Hands.HandScorePermutation | Eliminator/HandManager.cs:296-312 | a hand's score does not depend on order, so scrambling keeps it |
| Hands.MultisetRemove | Eliminator/HandManager.cs:355-356 | removing a card removes exactly that value from the hand's multiset |
| Hands.FullSetScore | Eliminator.Test/HandManagerTests.cs:138-146 | a hand holding one full set of 54 cards scores 334 |
| Hands.SpanScoreIs | Eliminator/HandManager.cs:395-407 | the values 1..n score as the closed form |
| Hands.SpanScoreTotal | Eliminator.Test/HandManagerTests.cs:138-146 | the values 1..54 score 334 |
| Hands.SuitScore | Eliminator/HandManager.cs:395-407 | a suit scores 78, plus 13 for a red suit's king |
| Hands.SuitPrefix | Eliminator/HandManager.cs:395-407 | the first r ranks of a suit score 1 + .. + r |
| Hands.RankScore | Eliminator/HandManager.cs:395-407 | a non-king suited card scores its rank |
| Hands.DealBound | Eliminator/HandManager.cs:52-61 | player p's block ends within players times cards |
| Hands.DealPosition | Eliminator/HandManager.cs:52-61 | two blocks' positions coincide only for the same player and index |
| Wire.Le16 | Eliminator/Network/PacketWriter.cs:22 | a ushort is two little-endian bytes that read back as it |
| Wire.Le32 | Eliminator/Network/PacketWriter.cs:23 | an int is four little-endian bytes that read back as it |
| Wire.U16RoundTrip | Eliminator/Network/PacketReader.cs:254-260 | two written little-endian bytes read back as the ushort, advancing the cursor by 2 |
| Wire.I32RoundTrip | Eliminator/Network/PacketReader.cs:176-178 | four written little-endian bytes read back as the int, advancing the cursor by 4 |
| Wire.Utf8 | Eliminator/Network/PacketWriter.cs:27 | UTF-8 (RFC 3629) takes at least one byte per character |
| Wire.Utf8Decode | Eliminator/Network/PacketReader.cs:352 | decoding yields at most one character per byte |
| Wire.Utf8Lengths | Eliminator/Network/PacketWriter.cs:24-28 | UTF-8 takes one byte per ASCII character and at least as many bytes as UTF-16 units |
| Wire.Utf8RoundTrip | Eliminator/Network/PacketReader.cs:346-353 | decoding the UTF-8 encoding of a text gives back the text |
| Wire.Str | Eliminator/Network/PacketWriter.cs:24-28 | a string is a 4-byte length followed by its UTF-8 bytes (corrected prefix: the byte count) |
| Wire.StrAsWritten | Eliminator/Network/PacketWriter.cs:24-28 | the written prefix is the UTF-16 length while the UTF-8 bytes follow |
| Wire.AsciiStrUnchanged | Eliminator/Network/PacketWriter.cs:24-28 | for ASCII names the written and corrected encodings are equal |
| Wire.OpCodeOf | Eliminator/Enums/OpCode.cs:2-41 | every message has an opcode from AssignId=0 to GameEnd=24 |
| Wire.Encode | Eliminator/Network/PacketWriter.cs:24-375 | every packet begins with its opcode byte; string fields carry the written UTF-16 length prefix |
| Wire.ConnectLayout | Eliminator/Network/PacketWriter.cs:49-55 | Connect is the opcode followed by the user name as written: its UTF-16 length, then its UTF-8 bytes |
| Wire.InitialiseGameLayout | Eliminator/Network/PacketWriter.cs:86-100 | three int32s, a count byte, then (id, name) per user in list order, each name with its written UTF-16 length prefix |
| Wire.GameEndLayout | Eliminator/Network/PacketWriter.cs:364-375 | a count byte followed by (id, int32 score) entries in input order |
| Wire.EncodedSizes | Eliminator/Network/PacketWriter.cs:63-375 | opcode-only packets are exactly one byte; Swap and DisplaySwap 5; QuickPlace 4; ConnectionResponse 2 on success and 3 on failure; GameEnd 2 + 5n; an ASCII Connect 5 + n |
| Wire.Players | Eliminator/Network/PacketWriter.cs:93-97 | each user entry takes at least five bytes |
| Wire.Scores | Eliminator/Network/PacketWriter.cs:368-372 | each score entry takes exactly five bytes |
| Wire.ConnectionResponseAt | Eliminator/Network/PacketReader.cs:160-173 | the error byte is read exactly when success is false, so success holds iff no error is read |
| Wire.InitialiseGameAt | Eliminator/Network/PacketReader.cs:174-189 | decoding opcode 3 yields an InitialiseGame |
| Wire.StringAt | Eliminator/Network/PacketReader.cs:346-353 | a string read never moves the cursor backwards or past the end |
| Wire.BodyAt | Eliminator/Network/PacketReader.cs:64-146 | a decoded body has the opcode it was read for; an unknown opcode throws InvalidOperation and consumes nothing |
| Wire.MessageAt | Eliminator/Network/PacketReader.cs:64-146 | a decoded message's opcode is the byte it started at |
| Wire.StringRoundTrip | Eliminator/Network/PacketReader.cs:346-353 | reading a written string consumes its 4-byte length and exactly that many bytes and yields the text |
| Wire.EntryRoundTrip | Eliminator/Network/PacketReader.cs:183-184 | a written user entry with an ASCII name reads back and the cursor lands after it |
| Wire.PlayersRoundTrip | Eliminator/Network/PacketReader.cs:174-189 | reading `count` written entries with ASCII names yields them in order |
| Wire.ScoresRoundTrip | Eliminator/Network/PacketReader.cs:329-342 | reading `count` written score entries yields them in order |
| Wire.InitialiseGameRoundTrip | Eliminator/Network/PacketReader.cs:174-189 | a written InitialiseGame body with ASCII names reads back field for field |
| Wire.GameEndRoundTrip | Eliminator/Network/PacketReader.cs:329-342 | a written GameEnd body reads back with its scores in order |
| Wire.Received | Eliminator/Network/PacketReader.cs:160-173 | what a message reads back as keeps its opcode, and equals it unless a successful ConnectionResponse carried an error |
| Wire.MessageRoundTrip | Eliminator/Network/PacketReader.cs:64-146 | a written message whose names are ASCII reads back at any position, and the cursor advances by its length |
| Wire.PacketRoundTrip | Eliminator.Test/PacketReadWriteTests.cs:23-187 | decoding the encoding of any writable message whose names are ASCII restores every field and consumes the whole packet |
| Wire.NonAsciiNameMisread | Eliminator/Network/PacketReader.cs:346-353 | a one-character non-ASCII name written as written reads back wrong and leaves a byte that is misread as an unknown opcode |
| Writer.PacketWriter.RetrievePacket | Eliminator/Network/PacketWriter.cs:10-15 | returns the buffered bytes and empties the buffer |
| Writer.PacketWriter.constructor | Eliminator/Network/PacketWriter.cs:8 | the shared buffer starts empty |
| Writer.PacketWriter.WriteByte | Eliminator/Network/PacketWriter.cs:19-21 | bytes, opcodes and card values append one byte |
| Writer.PacketWriter.WriteU16 | Eliminator/Network/PacketWriter.cs:22 | a ushort appends its two little-endian bytes |
| Writer.PacketWriter.WriteInt | Eliminator/Network/PacketWriter.cs:23 | an int appends its four little-endian bytes |
| Writer.PacketWriter.WriteBool | Eliminator/Network/PacketWriter.cs:18 | appends one byte, 1 for true and 0 for false |
| Writer.PacketWriter.WriteString | Eliminator/Network/PacketWriter.cs:24-28 | appends the string's `Length` in UTF-16 units as an int32, then its UTF-8 bytes |
| Writer.PacketWriter.Finish | Eliminator/Network/PacketWriter.cs:10-15 | a finished packet is the message's encoding and the buffer is empty again |
| Writer.PacketWriter.WriteAssignIdPacket | Eliminator/Network/PacketWriter.cs:36-42 | returns the encoding of AssignId and leaves the buffer empty |
| Writer.PacketWriter.WriteConnectionPacket | Eliminator/Network/PacketWriter.cs:49-55 | returns the encoding of Connect, with the written name prefix, and leaves the buffer empty |
| Writer.PacketWriter.WriteConnectionResponsePacket | Eliminator/Network/PacketWriter.cs:63-76 | asserts a failure carries an error; returns the encoding of ConnectionResponse |
| Writer.PacketWriter.WriteUsers | Eliminator/Network/PacketWriter.cs:93-97 | the user loop appends each (id, name) entry in list order, names with the written prefix |
| Writer.PacketWriter.WriteInitialiseGamePacket | Eliminator/Network/PacketWriter.cs:86-100 | returns the encoding of InitialiseGame, with the written name prefixes, and leaves the buffer empty |
| Writer.PacketWriter.WriteDisconnectionPacket | Eliminator/Network/PacketWriter.cs:107-113 | returns the encoding of Disconnection |
| Writer.PacketWriter.WriteQuickPlacePacket | Eliminator/Network/PacketWriter.cs:122-129 | returns the encoding of QuickPlace |
| Writer.PacketWriter.WriteQuickPlaceResultPacket | Eliminator/Network/PacketWriter.cs:138-146 | returns the encoding of QuickPlaceResult |
| Writer.PacketWriter.WriteStartTurnPacket | Eliminator/Network/PacketWriter.cs:153-159 | returns the encoding of StartTurn |
| Writer.PacketWriter.WriteDrawPacket | Eliminator/Network/PacketWriter.cs:165-170 | returns the encoding of Draw |
| Writer.PacketWriter.WriteDrawResultPacket | Eliminator/Network/PacketWriter.cs:177-183 | returns the encoding of DrawResult |
| Writer.PacketWriter.WriteDisplayDrawPacket | Eliminator/Network/PacketWriter.cs:189-194 | returns the encoding of DisplayDraw |
| Writer.PacketWriter.WriteDiscardPacket | Eliminator/Network/PacketWriter.cs:200-205 | returns the encoding of Discard |
| Writer.PacketWriter.WriteDiscardResultPacket | Eliminator/Network/PacketWriter.cs:212-218 | returns the encoding of DiscardResult |
| Writer.PacketWriter.WriteSwapPacket | Eliminator/Network/PacketWriter.cs:226-233 | returns the encoding of Swap |
| Writer.PacketWriter.WriteDisplaySwapPacket | Eliminator/Network/PacketWriter.cs:241-248 | returns the encoding of DisplaySwap |
| Writer.PacketWriter.WritePeekPacket | Eliminator/Network/PacketWriter.cs:255-261 | returns the encoding of Peek |
| Writer.PacketWriter.WritePeekResultPacket | Eliminator/Network/PacketWriter.cs:268-274 | returns the encoding of PeekResult |
| Writer.PacketWriter.WriteDisplayPeekPacket | Eliminator/Network/PacketWriter.cs:281-287 | returns the encoding of DisplayPeek |
| Writer.PacketWriter.WriteScramblePacket | Eliminator/Network/PacketWriter.cs:294-300 | returns the encoding of Scramble |
| Writer.PacketWriter.WriteDisplayScramblePacket | Eliminator/Network/PacketWriter.cs:307-313 | returns the encoding of DisplayScramble |
| Writer.PacketWriter.WritePassTurnPacket | Eliminator/Network/PacketWriter.cs:319-324 | returns the encoding of PassTurn |
| Writer.PacketWriter.WriteForceEndTurnPacket | Eliminator/Network/PacketWriter.cs:330-335 | returns the encoding of ForceEndTurn |
| Writer.PacketWriter.WriteCallItPacket | Eliminator/Network/PacketWriter.cs:341-346 | returns the encoding of CallIt |
| Writer.PacketWriter.WriteCalledItPacket | Eliminator/Network/PacketWriter.cs:352-357 | returns the encoding of CalledIt |
| Writer.PacketWriter.WriteScores | Eliminator/Network/PacketWriter.cs:368-372 | the score loop appends each (id, score) entry in input order |
| Writer.PacketWriter.WriteGameEndPacket | Eliminator/Network/PacketWriter.cs:364-375 | returns the encoding of GameEnd |
| Reader.PacketQueue.ReadInternalPacket | Eliminator/Network/PacketReader.cs:51-54 | appends the packet at the back of the queue |
| Reader.PacketQueue.NextPacketReady | Eliminator/Network/PacketReader.cs:42-45 | ready exactly when the queue is non-empty |
| Reader.PacketQueue.GetNextPacket | Eliminator/Network/PacketReader.cs:30-40 | removes and returns the oldest packet |
| Reader.PacketQueue.constructor | Eliminator/Network/PacketReader.cs:14 | the shared queue starts empty |
| Reader.PacketReader.constructor | Eliminator/Network/PacketReader.cs:21-24 | a reader starts at the stream's beginning with its sender id |
| Reader.PacketReader.ReadByte | Eliminator/Network/PacketReader.cs:179 | reads one byte as the codec does; at the end of the stream it throws |
| Reader.PacketReader.ReadBoolean | Eliminator/Network/PacketReader.cs:162 | reads one byte as a boolean, as the codec does |
| Reader.PacketReader.ReadUInt16 | Eliminator/Network/PacketReader.cs:256-257 | reads two little-endian bytes, as the codec does |
| Reader.PacketReader.ReadInt32 | Eliminator/Network/PacketReader.cs:176-178 | reads four little-endian bytes, as the codec does |
| Reader.PacketReader.ReadBytes | Eliminator/Network/PacketReader.cs:352 | reads the given number of bytes as the codec does, and a negative count throws |
| Reader.PacketReader.ReadString | Eliminator/Network/PacketReader.cs:346-353 | consumes a 4-byte length and then that many bytes, as the codec reads a string |
| Reader.PacketReader.ReadByteMessage | Eliminator/Network/PacketReader.cs:149-153 | the messages with at most one byte field (AssignId and the like) read as the codec decodes them |
| Reader.PacketReader.ReadIdMessage | Eliminator/Network/PacketReader.cs:270-289 | the one-id messages read as the codec decodes them |
| Reader.PacketReader.ReadTwoIdMessage | Eliminator/Network/PacketReader.cs:254-268 | Swap and DisplaySwap read two u16 ids, as the codec decodes them |
| Reader.PacketReader.ReadConnect | Eliminator/Network/PacketReader.cs:155-159 | reads Connect as the codec decodes it |
| Reader.PacketReader.ReadConnectionResponse | Eliminator/Network/PacketReader.cs:160-173 | reads the error byte only on failure, as the codec decodes it |
| Reader.PacketReader.ReadEntry | Eliminator/Network/PacketReader.cs:183-184 | reads one (id, name) entry as the codec does |
| Reader.PacketReader.ReadPlayers | Eliminator/Network/PacketReader.cs:179-185 | the entry loop reads exactly `count` entries in order, as the codec does |
| Reader.PacketReader.ReadInitialiseGame | Eliminator/Network/PacketReader.cs:174-189 | reads InitialiseGame as the codec decodes it |
| Reader.PacketReader.ReadQuickPlace | Eliminator/Network/PacketReader.cs:198-204 | reads QuickPlace as the codec decodes it |
| Reader.PacketReader.ReadQuickPlaceResult | Eliminator/Network/PacketReader.cs:206-213 | reads QuickPlaceResult as the codec decodes it |
| Reader.PacketReader.ReadScores | Eliminator/Network/PacketReader.cs:332-339 | the score loop reads exactly `count` entries in order |
| Reader.PacketReader.ReadGameEnd | Eliminator/Network/PacketReader.cs:329-342 | reads GameEnd as the codec decodes it |
| Reader.PacketReader.Read | Eliminator/Network/PacketReader.cs:64-146 | enqueues exactly one packet with the reader's sender id and the decoded message, whose opcode is the one asked for; an unknown opcode or a short stream enqueues nothing and reports the exception |
| Turns.At | Eliminator/HostGameManager.cs:460 | the list indexer, with ArgumentOutOfRange outside the list |
| Turns.FindIndex | Eliminator/HostGameManager.cs:463 | the first position holding the id, or -1 exactly when it is absent |
| Turns.Slice | Eliminator/HostGameManager.cs:466 | the slice's elements, or the exception .NET raises for a bad range |
| Turns.Others | Eliminator/HostGameManager.cs:418-423 | the waiting players are exactly the players other than the turn player |
| Turns.Successor | Eliminator/HostGameManager.cs:443-448 | the next player is always a player |
| Turns.NextPlayer | EliminatorApp/InputValidator.cs:166-173 | current+1 when that is a player, else the first player; no players throws |
| Turns.NextPlayerAsWrittenOnTurn | Eliminator/HostGameManager.cs:443-448 | asked about the turn player, the server's version agrees with the client's |
| Turns.NextPlayerAsWrittenOffTurn | Eliminator/HostGameManager.cs:443-448 | asked about another player, the server's version answers turn+1 |
| Turns.SuccessorOnTable | Eliminator/HostGameManager.cs:443-448 | around players 0..n-1 the next player is current+1, wrapping to 0 |
| Turns.AfterOnTable | Eliminator/HostGameManager.cs:456-460 | k turns after the caller comes caller+k modulo n |
| Turns.CallOrder | Eliminator/HostGameManager.cs:456-460 | the intended order of play from the caller, one entry per player |
| Turns.CallOrderOnTable | Eliminator/HostGameManager.cs:456-460 | around players 0..n-1 the call order is caller, caller+1, .. modulo n |
| Turns.NonLocked | Eliminator/HostGameManager.cs:450-472 | the players still free are players (or the caller); the intended version takes the last entry, the intended successor and the `Count - index` entries left |
| Turns.NonLockedOnTable | Eliminator/HostGameManager.cs:450-472 | after a call the free players run from the turn player up to the player before the caller; the turn player is free and the caller only on its own turn |
| Turns.NonLockedAsWrittenCases | Eliminator/HostGameManager.cs:450-472 | as written: every player before a call; after it a crash with two or more players, else the caller alone on its turn |
| Turns.NonLockedAsWrittenCrashes | Eliminator/HostGameManager.cs:460 | two players, player 0 called, player 1 to play: the written version throws, the intended one frees player 1 |
| Turns.NonLockedSliceAsWritten | Eliminator/HostGameManager.cs:463-470 | with the order built right, slicing `Count` entries from any index above 0 throws ArgumentException, which the filter does not catch; slicing the `Count - index` entries left gives the intended free players |
| Turns.NonLockedSliceCrashes | Eliminator/HostGameManager.cs:463-470 | three players, player 0 called, player 1 to play: the written slice throws ArgumentException, the intended one frees players 1 and 2 |
| Host.OwnerOf | Eliminator/HostGameManager.cs:425-441 | the owner is the server (255) or a listed player holding the card |
| Host.OwnerIsHolder | Eliminator/HostGameManager.cs:425-441 | a card held by a listed player is reported as that player's |
| Host.OwnerOfUnheld | Eliminator/HostGameManager.cs:425-441 | a card in no listed hand belongs to the server |
| Host.OnlyHolder | Eliminator/HandManager.cs:327-343 | the hand that holds a card is its first holder |
| Host.NotElsewhere | Eliminator/HandManager.cs:39-65 | a card in one hand is in no other |
| Host.Insert | Eliminator/HostGameManager.cs:395-416 | inserting an id adds it to the multiset of ids |
| Host.InsertAscending | Eliminator/HostGameManager.cs:395-416 | inserting into an ascending list keeps it ascending |
| Host.SortIds | Eliminator/HostGameManager.cs:395-416 | the sorted ids are ascending and a permutation of the input |
| Host.ClientIds | Eliminator/HostGameManager.cs:395-416 | the client list's ids in connection order |
| Host.RemoveClient | Eliminator/HostGameManager.cs:395-416 | removes the first client with the id, or nothing when none has it |
| Host.WrapScores | Eliminator/HostGameManager.cs:320 | the scores, wrapped to int32, one per hand in order |
| Host.GameEndsEarlyAsWritten | Eliminator/HostGameManager.cs:307-323 | as written an uncalled game ends when the turn reaches player 0, and a called one at the next end of turn |
| Host.GameGoesOnForOneRound | Eliminator/HostGameManager.cs:311 | with the intended rule, after a call every other player has one turn and the game ends when the turn returns to the caller |
| Host.SwapAlwaysRefusedAsWritten | Eliminator/HostGameManager.cs:261-262 | as written, every list of actions the host ever expects refuses a swap |
| Host.SwapAcceptedWhenExpected | Eliminator/HostGameManager.cs:261-262 | the intended test accepts a swap after a draw, after a discarded jack or queen and at the first turn's start, and refuses it once the action is spent |
| Host.HostGameManager.constructor | Eliminator/HostGameManager.cs:10-25 | not running, no call, nothing expected but None, a 30-second turn limit, nothing sent |
| Host.HostGameManager.AssignIds | Eliminator/HostGameManager.cs:39-43 | client k gets id k and an AssignId(k) message |
| Host.HostGameManager.SendToWaitingPlayers | Eliminator/HostGameManager.cs:418-423 | sends to every player except the turn player; nothing else changes |
| Host.HostGameManager.GetCardOwnerId | Eliminator/HostGameManager.cs:425-441 | the first listed player holding the card, else 255 |
| Host.HostGameManager.GetNonLockedPlayers | Eliminator/HostGameManager.cs:450-472 | exactly the written behaviour, including the crash |
| Host.HostGameManager.HandleCall | Eliminator/HostGameManager.cs:157-179 | only the turn player can call, only once; it records the caller |
| Host.HostGameManager.HandleDraw | Eliminator/HostGameManager.cs:181-213 | from the turn player, when a draw is expected and cards remain: pops the deck into the held card, then expects a swap, sends DisplayDraw to the others and DrawResult to the drawer, leaving the id counter and placeholder ids as they were; otherwise nothing |
| Host.HostGameManager.HandlePeek | Eliminator/HostGameManager.cs:215-245 | a peek at the turn player's own card is PeekSelf, else PeekOther; if expected, it then expects None, sends the value to the peeker and DisplayPeek to the others |
| Host.HostGameManager.CheckSwap | Eliminator/HostGameManager.cs:255-275 | computes the swap gate: sender, expected actions, and each card's owner and lock |
| Host.HostGameManager.HandleSwap | Eliminator/HostGameManager.cs:247-285 | as written every swap is refused with no effect; a swap that passed the gate takes the hand manager's `SwapOutcome`: on an exception (the held-card assertion included) nothing changes, otherwise the discard pile and card values are the outcome's, the id counter and placeholder ids are kept, None is expected and the others are shown the swap |
| Host.HostGameManager.HandleDiscard | Eliminator/HostGameManager.cs:287-305 | from the turn player: discards the held card, keeping the id counter and placeholder ids, then expects that card's action and sends DiscardResult; nothing held fails the assert |
| Host.HostGameManager.HandleEndTurn | Eliminator/HostGameManager.cs:307-323 | advances the turn; if the written test says go on, broadcasts StartTurn, expects Swap and resets the deadline, otherwise broadcasts the final scores and stops |
| Host.HostGameManager.EndGame | Eliminator/HostGameManager.cs:320-321 | broadcasts GameEnd with every hand's score and stops the loop |
| Host.HostGameManager.CheckQuickPlace | Eliminator/HostGameManager.cs:339-361 | computes the quick-place gate: deck not empty, not too late after a call, card in the sender's hand, owner not locked |
| Host.HostGameManager.HandleQuickPlace | Eliminator/HostGameManager.cs:331-393 | a request past the gate is announced, then exactly one outcome is broadcast: Success removes the card and expects its action, TooLate changes nothing, Failure punishes the sender with one card; Success and TooLate keep the id counter and placeholder ids, while a punishment always advances the counter and, when the new id is already taken, fails with no card value changed |
| Host.HostGameManager.PlaceCard | Eliminator/HostGameManager.cs:366-392 | the three outcomes of a quick place that passed the gate, with the id counter kept by Success and TooLate and advanced by the punishment, which changes no card value when it fails on a taken id |
| Host.HostGameManager.HandleDisconnection | Eliminator/HostGameManager.cs:395-416 | removes the client and rebuilds the player ids as its remaining ids in ascending order |
| Host.HostGameManager.PickFirst | Eliminator/HostGameManager.cs:94-95 | the first player is below the last id (the random draw excludes it), or 0 |
| Host.HostGameManager.Settings | Eliminator/HostGameManager.cs:84-90 | the game settings message carries the turn limit and the client list |
| Host.HostGameManager.StartGame | Eliminator/HostGameManager.cs:83-101 | broadcasts the settings and StartTurn for the chosen player, expects a discard swap, draw or quick place, and sets the deadline |
| Host.HostGameManager.BeginFirstTurn | Eliminator/HostGameManager.cs:94-101 | picks the first player and starts its turn |
| Host.HostGameManager.Step | Eliminator/HostGameManager.cs:103-152 | an empty queue before the deadline does nothing; after it a ForceEndTurn from 255 is handled; otherwise the oldest packet is handled; pass and forced end both advance the turn |
| Host.HostGameManager.StepAsWritten | Eliminator/HostGameManager.cs:103-114 | the deadline is looked at only before entering `GetNextPacket`; once blocked there with an empty queue, a pass at any later time consumes nothing and the host stays blocked; a queued packet is taken and handled and unblocks it |
| Host.HostGameManager.Dispatch | Eliminator/HostGameManager.cs:115-151 | unhandled kinds change nothing; PassTurn and ForceEndTurn both run the end of turn |
| Host.HostGameManager.DispatchTurnAction | Eliminator/HostGameManager.cs:130-141 | draw, discard, swap and peek never stop the loop |
| Host.HostGameManager.DispatchOther | Eliminator/HostGameManager.cs:115-151 | the remaining kinds never stop the loop, and unhandled kinds change nothing |
| Host.HostGameManager.Run | Eliminator/HostGameManager.cs:81-155 | with no players it throws; a finished run has broadcast the final scores and reset the card registry |
| Validation.CardsOf | EliminatorApp/InputValidator.cs:66-82 | the cards of the listed players; an unknown player throws |
| Validation.CardsOfMembers | EliminatorApp/InputValidator.cs:66-82 | a card is collected iff a listed player holds it |
| Validation.InSpan | Eliminator/HandManager.cs:102-105 | the player ids 0..n-1 are exactly the numbers below n |
| Validation.InputValidator.constructor | EliminatorApp/InputValidator.cs:19-26 | the call state starts from the calling player given, if any |
| Validation.InputValidator.OnCalledIt | EliminatorApp/InputValidator.cs:89-93 | records the call and its caller; afterwards calling is refused in every state |
| Validation.InputValidator.GetNonLockedPlayerIds | EliminatorApp/InputValidator.cs:138-162 | the written behaviour shared with the server |
| Validation.InputValidator.UserIsLocked | EliminatorApp/InputValidator.cs:131 | before a call nobody at the table is locked; after it the check throws with two or more players |
| Validation.InputValidator.NextPlayerId | EliminatorApp/InputValidator.cs:166-173 | current+1 if that is a player, else player 0 |
| Validation.InputValidator.CollectCards | EliminatorApp/InputValidator.cs:66-82 | the collecting loop gathers the listed players' cards |
| Validation.InputValidator.GetValidCardIds | EliminatorApp/InputValidator.cs:36-87 | the selectable ids for each game state |
| Validation.OwnCardsBeforeCall | EliminatorApp/InputValidator.cs:40-63 | before a call: none in Initialisation, QuickPlace and Scramble; the own hand in Waiting, TurnEnd, DiscardSwap and PeekSelf; the own hand plus the top discard in TurnStart and DeckDraw |
| Validation.PeekOtherBeforeCall | EliminatorApp/InputValidator.cs:65-71 | before a call, PeekOther offers exactly the cards of the other players |
| Validation.SwapBeforeCall | EliminatorApp/InputValidator.cs:73-82 | before a call, a swap offers exactly the cards of all players |
| Validation.LockedTableThrows | EliminatorApp/InputValidator.cs:138-162 | after a call with two or more players, every state that asks about locks throws |
| Validation.PeekOtherNotOwn | EliminatorApp/InputValidator.cs:65-71 | PeekOther never offers one of the user's own cards |
| Validation.CardsOfPrefixErr | EliminatorApp/InputValidator.cs:66-82 | an unknown player early in the list makes the whole collection throw |
| Machine.GameStateMachine.constructor | EliminatorApp/GameStateMachine.cs:37-48 | the machine starts in Initialisation with no quick-place entry point |
| Machine.GameStateMachine.Passing | EliminatorApp/GameStateMachine.cs:37-99 | the permits that pass are configured ones whose guards hold; a throwing guard throws |
| Machine.GameStateMachine.Fire | EliminatorApp/GameStateMachine.cs:104-114 | a fired trigger either throws and leaves state and entry point unchanged, or moves to the outcome of the single passing permit |
| Machine.GameStateMachine.Take | EliminatorApp/GameStateMachine.cs:37-99 | entering a permit's destination runs the exit hook and sets the state |
| Machine.GameStateMachine.TakenKeepsValid | EliminatorApp/GameStateMachine.cs:191-203 | every transition keeps the state valid: a recorded entry point is always Waiting, TurnStart or TurnEnd; QuickPlace always has one; DeckDraw and DiscardSwap never do |
| Machine.GameStateMachine.QuickPlaceFinished | EliminatorApp/GameStateMachine.cs:198-203 | returns the recorded entry point and clears it |
| Machine.GameStateMachine.CardActionToState | EliminatorApp/GameStateMachine.cs:172-189 | Swap, PeekSelf, PeekOther and Scramble go to their states, None to the entry point; anything else throws |
| Machine.GameStateMachine.TrackQuickPlace | EliminatorApp/GameStateMachine.cs:191-196 | records the state left iff the destination is QuickPlace, and clears it otherwise |
| Machine.GameStateMachine.OutcomeByConfig | EliminatorApp/GameStateMachine.cs:37-99 | no configured permit throws InvalidOperation; a single one fires when its guard holds |
| Machine.GameStateMachine.StartTurnRule | EliminatorApp/GameStateMachine.cs:50-55 | from Initialisation StartTurn goes to TurnStart iff the id is the user's, else Waiting; from Waiting only the user's id is permitted |
| Machine.GameStateMachine.DeckClickRule | EliminatorApp/GameStateMachine.cs:63-65 | DeckClick from TurnStart goes to DeckDraw iff cards remain |
| Machine.GameStateMachine.EndTurnRule | EliminatorApp/GameStateMachine.cs:63-80 | EndTurn from TurnStart or TurnEnd goes to Waiting, and is refused elsewhere |
| Machine.GameStateMachine.CancelRule | EliminatorApp/GameStateMachine.cs:59-98 | Cancel returns from QuickPlace to the entry point and clears it, from DiscardSwap to TurnStart, from the action states to TurnEnd; it is permitted exactly when `CanFireCancelTrigger` holds |
| Machine.GameStateMachine.CardActionRule | EliminatorApp/GameStateMachine.cs:82-98 | DoCardAction moves to the action's state or back to the entry point; other actions throw |
| Machine.GameStateMachine.SelectionFinishesAction | EliminatorApp/GameStateMachine.cs:84-98 | a selection that completes a card action returns to the entry point if set, else TurnEnd |
| Machine.GameStateMachine.SwapNeedsOwnCard | EliminatorApp/GameStateMachine.cs:90-94 | a swap selection with none of the user's own cards is refused, since the other-hand test wants a single card |
| Machine.GameStateMachine.QuickPlaceRule | EliminatorApp/GameStateMachine.cs:54-80 | in Waiting and TurnEnd a selection that passes the quick-place guard goes to QuickPlace and records the entry point |
| Machine.GameStateMachine.TurnStartSelectionRule | EliminatorApp/GameStateMachine.cs:63-68 | in TurnStart selecting the discard goes to DiscardSwap and selecting an own card goes to QuickPlace; the two guards never both pass |
| Machine.DrawCheckAgrees | EliminatorApp/InputValidator.cs:95 | the validator allows a draw exactly when the machine accepts DeckClick |
| Machine.PassCheckAgrees | EliminatorApp/InputValidator.cs:96-106 | the validator allows a pass exactly when the machine accepts EndTurn |
| Machine.OfferedCardAccepted | EliminatorApp/InputValidator.cs:45-63 | before a call, a card the validator offers is accepted by the machine in Waiting and TurnEnd while the deck has cards, and in PeekSelf; with the deck empty it is offered in Waiting and TurnEnd but refused with InvalidOperationException |

## Left out

- Sockets, the client connection handshake of `InitialiseAllClients` beyond the id assignment,
  console output and sleeps. The server's sends are recorded as a log.
- Wall-clock time is a parameter (`now`, or a sequence of clock readings for `Run`).
- Randomness (the deck shuffle, the scramble order and the first player) is an arbitrary
  choice. The model keeps only what the code guarantees: a permutation, or an id below the
  last one. Uniformity is not modelled.
- `GetNextPacket` busy-waits on a concurrent queue, which other threads fill. The model
  requires a packet to be waiting; the wait itself is the `blocked` flag of `StepAsWritten`.
- Host.HostGameManager.Step: it looks at the deadline again on every pass, where the source
  blocks in `GetNextPacket` once the queue is empty before the deadline. The source's pass is
  `StepAsWritten`, compared under "## Findings".
- Hands.HandManager.constructor: requires that the next ids are free and do not wrap past
  65535. A constructor cannot return the ArgumentException that `Dictionary.Add` throws on a
  wrapped id already taken, so that case, and the partly dealt table it leaves, are not
  modelled.
- Hands.DealTable: the same bound on ids; the ArgumentException on a wrapped, taken id is not
  modelled.
- Hands.DealAll: the same bound on ids, for the ids the deal loop allocates.
- Hands.DealHand: the same bound on ids, for one hand.
- Hands.DealOne: requires the next id to be free, so `NewCard` cannot fail there.
- The game-state machine's `StateChanged` event, `OnTransitionCompleted` and the list of
  permitted triggers are not modelled, because they only feed the display.
- The six `Fire*` methods of the state machine are one `Fire` over a `Firing` value naming
  the trigger and its argument.
- The client's hand manager built over a `BlankDeck` is not modelled separately. `BlankDeck`
  is modelled on its own.
- Lazy enumeration of `IEnumerable` results is modelled as an eager list.
- Debug and release builds differ only in `Debug.Assert`. The model keeps the assertions.
- UTF-8 decoding replaces an ill-formed byte with U+FFFD one byte at a time. This agrees with
  .NET on every input the proofs use, but not on all ill-formed input.
- Hands.HandManager.Scramble: the shuffled order is arbitrary, so only the permutation of the
  hand's values is stated.
- Host.HostGameManager.Run: the contract states the outcome of a finished run. What happens
  between steps is stated by `Step`.
- Validation.InputValidator.GetValidCardIds: the unreachable default branch, for a state
  outside the enum, is not modelled.

## Findings

| source | as written | input that shows it | evidently intended | confidence | as-written member | corrected member |
|---|---|---|---|---|---|---|
| Eliminator/Network/PacketWriter.cs:24-28 | the string prefix is `data.Length`, the number of UTF-16 units, while the reader reads that many UTF-8 bytes | the user name "é": prefix 1, bytes C3 A9; the reader takes C3 alone and then misreads A9 as an opcode | the prefix is the UTF-8 byte count | not executed; high | Wire.NonAsciiNameMisread | Wire.StringRoundTrip |
| Eliminator/HostGameManager.cs:450-472 | the order loop reads `playersInNewOrder[-1]`, which throws outside the `try` | two players, player 0 called, player 1 to play | the last element; together with the slice-count fix of the next row and the next-player fix of the row for lines 443-448, the free players run from the turn player to the player before the caller | not executed; high | Turns.NonLockedAsWrittenCrashes | Turns.NonLockedOnTable |
| Eliminator/HostGameManager.cs:463-470 | `Slice(indexOfCurrentPlayer, _playerIds.Count)` asks for `Count` entries from the turn player's index, past the end for any index above 0; the resulting ArgumentException is not the ArgumentOutOfRangeException the filter catches | with the `[-1]` read fixed: three players, player 0 called, player 1 to play | slice the `Count - index` entries that are left (the same slice is at EliminatorApp/InputValidator.cs:156) | not executed; high | Turns.NonLockedSliceAsWritten | Turns.NonLockedOnTable |
| Eliminator/HostGameManager.cs:307-323 | the game goes on only when it is not called and the next player is not `_callItPlayerId` (0 before a call) | an uncalled game whose turn passes to player 0 ends | end the game when it is called and the turn returns to the caller | not executed; high | Host.GameEndsEarlyAsWritten | Host.GameGoesOnForOneRound |
| Eliminator/HostGameManager.cs:261-262 | a swap is refused unless both Swap and DiscardSwap are expected | any swap after a draw (expected is [Swap]) | refuse only when neither is expected | not executed; high | Host.SwapAlwaysRefusedAsWritten | Host.SwapAcceptedWhenExpected |
| Eliminator/HostGameManager.cs:443-448 | tests whether `current + 1` is a player but returns `_turnPlayerId + 1` | players 0, 1, 2, turn player 0, asked about player 1: answers 1 | return `current + 1` | not executed; medium (every caller passes the turn player) | Turns.NextPlayerAsWrittenOffTurn | Turns.NextPlayer |
| Eliminator/HostGameManager.cs:103-114 | the deadline is looked at only when the queue is empty before `GetNextPacket`, which then spins until a packet arrives | the queue is empty at a pass before the deadline and no client sends anything after that pass: no ForceEndTurn is ever queued | look at the deadline while waiting, so the turn ends when its time runs out | not executed; high | Host.HostGameManager.StepAsWritten | Host.HostGameManager.Step |
