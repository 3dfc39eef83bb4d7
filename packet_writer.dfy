// The packet writer: every field writer appends to one shared buffer, and
// every packet writer writes its opcode and fields and then hands the
// buffer back and clears it.
module Writer {
  import opened Base
  import opened Wire

  class PacketWriter {
    /** The bytes written since the last packet was retrieved. */
    var written: seq<Byte>

    constructor()
      ensures written == []
    {
      written := [];
    }

    /** Hands back everything written so far and empties the buffer. */
    method RetrievePacket() returns (packet: seq<Byte>)
      modifies this
      ensures packet == old(written) && written == []
    {
      packet := written;
      written := [];
    }

    // Field writers

    /** `BitConverter.GetBytes(bool)` is one byte, 1 or 0. */
    method WriteBool(b: bool)
      modifies this
      ensures written == old(written) + [BoolByte(b)]
    {
      written := written + [BoolByte(b)];
    }

    /** A byte, an opcode or a card value. */
    method WriteByte(b: Byte)
      modifies this
      ensures written == old(written) + [b]
    {
      written := written + [b];
    }

    method WriteU16(x: U16)
      modifies this
      ensures written == old(written) + Le16(x)
    {
      written := written + Le16(x);
    }

    method WriteInt(x: I32)
      modifies this
      ensures written == old(written) + Le32(x)
    {
      written := written + Le32(x);
    }

    /** A string: its `Length` (UTF-16 units) as an int, then its UTF-8 bytes. */
    method WriteString(t: Text)
      requires Sized(t)
      modifies this
      ensures written == old(written) + StrAsWritten(t)
    {
      Utf8Lengths(t);
      WriteInt(Utf16Length(t));
      written := written + Utf8(t);
    }

    // Packet writers

    /** Writes the opcode of `m`, then `fields`, and retrieves the packet; shared by the packets of fixed width. */
    method Finish(m: Message, fields: seq<Byte>) returns (packet: seq<Byte>)
      requires Writable(m) && fields == Fields(m)
      modifies this
      ensures packet == old(written) + Encode(m) && written == []
    {
      WriteByte(OpCodeOf(m));
      written := written + fields;
      assert written == old(written) + Encode(m);
      packet := RetrievePacket();
    }

    method WriteAssignIdPacket(id: Byte) returns (packet: seq<Byte>)
      modifies this
      ensures packet == old(written) + Encode(AssignId(id)) && written == []
    {
      WriteByte(0);
      WriteByte(id);
      assert written == old(written) + Encode(AssignId(id));
      packet := RetrievePacket();
    }

    method WriteConnectionPacket(username: Text) returns (packet: seq<Byte>)
      requires Sized(username)
      modifies this
      ensures packet == old(written) + Encode(Connect(username)) && written == []
    {
      WriteByte(1);
      WriteString(username);
      Assoc(old(written), [1], StrAsWritten(username));
      ConnectLayout(Connect(username));
      packet := RetrievePacket();
    }

    /** The error byte follows only a refusal, and a refusal must carry one. */
    method WriteConnectionResponsePacket(success: bool, error: Option<Byte>) returns (packet: seq<Byte>)
      requires success || error.Some?
      modifies this
      ensures packet == old(written) + Encode(ConnectionResponse(success, error)) && written == []
    {
      WriteByte(2);
      WriteBool(success);
      if !success {
        WriteByte(error.value);
      }
      assert written == old(written) + Encode(ConnectionResponse(success, error));
      packet := RetrievePacket();
    }

    /** Each user's id and name, in list order. */
    method WriteUsers(users: seq<(Byte, Text)>)
      requires SizedPlayers(users)
      modifies this
      ensures written == old(written) + Players(users)
    {
      var i := 0;
      while i < |users|
        invariant 0 <= i <= |users|
        invariant SizedPlayers(users[..i])
        invariant written == old(written) + Players(users[..i])
      {
        PlayersSnoc(users, i);
        WriteByte(users[i].0);
        WriteString(users[i].1);
        Assoc(old(written) + Players(users[..i]), [users[i].0], StrAsWritten(users[i].1));
        Assoc(old(written), Players(users[..i]), [users[i].0] + StrAsWritten(users[i].1));
        i := i + 1;
      }
      assert users[..i] == users;
    }

    /** The three settings, the user count cut to a byte, then each user's id and name in list order. */
    method WriteInitialiseGamePacket(startingCards: I32, deckSize: I32, turnTimeLimit: I32, users: seq<(Byte, Text)>)
      returns (packet: seq<Byte>)
      requires SizedPlayers(users)
      modifies this
      ensures packet == old(written) + Encode(InitialiseGame(startingCards, deckSize, turnTimeLimit, users))
      ensures written == []
    {
      WriteByte(3);
      WriteInt(startingCards);
      WriteInt(deckSize);
      WriteInt(turnTimeLimit);
      WriteByte(TruncByte(|users|));
      WriteUsers(users);
      var a, b, c := Le32(startingCards), Le32(deckSize), Le32(turnTimeLimit);
      Assoc(old(written), [3], a);
      Assoc(old(written), [3] + a, b);
      Assoc(old(written), [3] + a + b, c);
      Assoc(old(written), [3] + a + b + c, [TruncByte(|users|)]);
      Assoc(old(written), [3] + a + b + c + [TruncByte(|users|)], Players(users));
      InitialiseGameLayout(InitialiseGame(startingCards, deckSize, turnTimeLimit, users));
      packet := RetrievePacket();
    }

    method WriteDisconnectionPacket(playerId: Byte) returns (packet: seq<Byte>)
      modifies this
      ensures packet == old(written) + Encode(Disconnection(playerId)) && written == []
    {
      packet := Finish(Disconnection(playerId), [playerId]);
    }

    method WriteQuickPlacePacket(cardId: U16, seenDiscard: Byte) returns (packet: seq<Byte>)
      modifies this
      ensures packet == old(written) + Encode(QuickPlace(cardId, seenDiscard)) && written == []
    {
      WriteByte(5);
      WriteU16(cardId);
      WriteByte(seenDiscard);
      assert written == old(written) + Encode(QuickPlace(cardId, seenDiscard));
      packet := RetrievePacket();
    }

    method WriteQuickPlaceResultPacket(outcome: Byte, playerId: Byte, cardValue: Byte) returns (packet: seq<Byte>)
      modifies this
      ensures packet == old(written) + Encode(QuickPlaceResult(outcome, playerId, cardValue)) && written == []
    {
      packet := Finish(QuickPlaceResult(outcome, playerId, cardValue), [outcome, playerId, cardValue]);
    }

    method WriteStartTurnPacket(playerId: Byte) returns (packet: seq<Byte>)
      modifies this
      ensures packet == old(written) + Encode(StartTurn(playerId)) && written == []
    {
      packet := Finish(StartTurn(playerId), [playerId]);
    }

    method WriteDrawPacket() returns (packet: seq<Byte>)
      modifies this
      ensures packet == old(written) + Encode(Draw) && written == []
    {
      packet := Finish(Draw, []);
    }

    method WriteDrawResultPacket(cardValue: Byte) returns (packet: seq<Byte>)
      modifies this
      ensures packet == old(written) + Encode(DrawResult(cardValue)) && written == []
    {
      packet := Finish(DrawResult(cardValue), [cardValue]);
    }

    method WriteDisplayDrawPacket() returns (packet: seq<Byte>)
      modifies this
      ensures packet == old(written) + Encode(DisplayDraw) && written == []
    {
      packet := Finish(DisplayDraw, []);
    }

    method WriteDiscardPacket() returns (packet: seq<Byte>)
      modifies this
      ensures packet == old(written) + Encode(Discard) && written == []
    {
      packet := Finish(Discard, []);
    }

    method WriteDiscardResultPacket(cardValue: Byte) returns (packet: seq<Byte>)
      modifies this
      ensures packet == old(written) + Encode(DiscardResult(cardValue)) && written == []
    {
      packet := Finish(DiscardResult(cardValue), [cardValue]);
    }

    method WriteSwapPacket(cardId1: U16, cardId2: U16) returns (packet: seq<Byte>)
      modifies this
      ensures packet == old(written) + Encode(Swap(cardId1, cardId2)) && written == []
    {
      WriteByte(13);
      WriteU16(cardId1);
      WriteU16(cardId2);
      assert written == old(written) + Encode(Swap(cardId1, cardId2));
      packet := RetrievePacket();
    }

    method WriteDisplaySwapPacket(cardId1: U16, cardId2: U16) returns (packet: seq<Byte>)
      modifies this
      ensures packet == old(written) + Encode(DisplaySwap(cardId1, cardId2)) && written == []
    {
      WriteByte(14);
      WriteU16(cardId1);
      WriteU16(cardId2);
      assert written == old(written) + Encode(DisplaySwap(cardId1, cardId2));
      packet := RetrievePacket();
    }

    method WritePeekPacket(cardId: U16) returns (packet: seq<Byte>)
      modifies this
      ensures packet == old(written) + Encode(Peek(cardId)) && written == []
    {
      WriteByte(15);
      WriteU16(cardId);
      assert written == old(written) + Encode(Peek(cardId));
      packet := RetrievePacket();
    }

    method WritePeekResultPacket(cardValue: Byte) returns (packet: seq<Byte>)
      modifies this
      ensures packet == old(written) + Encode(PeekResult(cardValue)) && written == []
    {
      packet := Finish(PeekResult(cardValue), [cardValue]);
    }

    method WriteDisplayPeekPacket(cardId: U16) returns (packet: seq<Byte>)
      modifies this
      ensures packet == old(written) + Encode(DisplayPeek(cardId)) && written == []
    {
      WriteByte(17);
      WriteU16(cardId);
      assert written == old(written) + Encode(DisplayPeek(cardId));
      packet := RetrievePacket();
    }

    method WriteScramblePacket(playerId: Byte) returns (packet: seq<Byte>)
      modifies this
      ensures packet == old(written) + Encode(Scramble(playerId)) && written == []
    {
      packet := Finish(Scramble(playerId), [playerId]);
    }

    method WriteDisplayScramblePacket(playerId: Byte) returns (packet: seq<Byte>)
      modifies this
      ensures packet == old(written) + Encode(DisplayScramble(playerId)) && written == []
    {
      packet := Finish(DisplayScramble(playerId), [playerId]);
    }

    method WritePassTurnPacket() returns (packet: seq<Byte>)
      modifies this
      ensures packet == old(written) + Encode(PassTurn) && written == []
    {
      packet := Finish(PassTurn, []);
    }

    method WriteForceEndTurnPacket() returns (packet: seq<Byte>)
      modifies this
      ensures packet == old(written) + Encode(ForceEndTurn) && written == []
    {
      packet := Finish(ForceEndTurn, []);
    }

    method WriteCallItPacket() returns (packet: seq<Byte>)
      modifies this
      ensures packet == old(written) + Encode(CallIt) && written == []
    {
      packet := Finish(CallIt, []);
    }

    method WriteCalledItPacket() returns (packet: seq<Byte>)
      modifies this
      ensures packet == old(written) + Encode(CalledIt) && written == []
    {
      packet := Finish(CalledIt, []);
    }

    /** Each player's id and score, in list order. */
    method WriteScores(scores: seq<(Byte, I32)>)
      modifies this
      ensures written == old(written) + Scores(scores)
    {
      var i := 0;
      while i < |scores|
        invariant 0 <= i <= |scores|
        invariant written == old(written) + Scores(scores[..i])
      {
        ScoresSnoc(scores, i);
        WriteByte(scores[i].0);
        WriteInt(scores[i].1);
        i := i + 1;
      }
      assert scores[..i] == scores;
    }

    /** The entry count cut to a byte, then each player's id and score in list order. */
    method WriteGameEndPacket(scores: seq<(Byte, I32)>) returns (packet: seq<Byte>)
      modifies this
      ensures packet == old(written) + Encode(GameEnd(scores)) && written == []
    {
      WriteByte(24);
      WriteByte(TruncByte(|scores|));
      WriteScores(scores);
      Assoc(old(written), [24], [TruncByte(|scores|)]);
      Assoc(old(written), [24] + [TruncByte(|scores|)], Scores(scores));
      GameEndLayout(GameEnd(scores));
      packet := RetrievePacket();
    }
  }
}
