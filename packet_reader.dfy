// The packet reader: a cursor over one connection's byte stream that turns
// the fields after an opcode into a message and appends it, tagged with the
// connection's id, to the queue every reader shares.
module Reader {
  import opened Base
  import opened Wire

  /** A received packet: its message and the id of the connection that sent it. */
  datatype Processed = Processed(senderId: Byte, message: Message)

  /** The queue every reader appends to and the game manager takes from, oldest first. */
  class PacketQueue {
    var waiting: seq<Processed>

    constructor()
      ensures waiting == []
    {
      waiting := [];
    }

    /** Appends a packet made without a stream (a lost connection, an expired turn). */
    method ReadInternalPacket(p: Processed)
      modifies this
      ensures waiting == old(waiting) + [p]
    {
      waiting := waiting + [p];
    }

    method NextPacketReady() returns (ready: bool)
      ensures ready <==> waiting != []
    {
      ready := waiting != [];
    }

    /** Takes the oldest packet; the source spins until there is one. */
    method GetNextPacket() returns (p: Processed)
      requires waiting != []
      modifies this
      ensures old(waiting) == [p] + waiting
    {
      p := waiting[0];
      waiting := waiting[1..];
    }
  }

  /** The outcome of a read that had to stop early, keeping the values read before it. */
  function Join<T>(front: seq<T>, st: Step<seq<T>>): Step<seq<T>>
  {
    if st.result.Ok? then Step(Ok(front + st.result.value), st.pos) else Step(Err(st.result.error), st.pos)
  }

  lemma JoinNothing<T>(st: Step<seq<T>>)
    ensures Join([], st) == st
  {
    if st.result.Ok? {
      assert [] + st.result.value == st.result.value;
    }
  }

  lemma JoinAssoc<T>(front: seq<T>, x: T, st: Step<seq<T>>)
    ensures Join(front, Join([x], st)) == Join(front + [x], st)
  {
    if st.result.Ok? {
      assert front + ([x] + st.result.value) == front + [x] + st.result.value;
    }
  }

  /** A list read whose first entry reads back as `e`, ending at `q`. */
  lemma PlayersAtNext(s: seq<Byte>, pos: nat, count: nat, e: (Byte, Text), q: nat)
    requires pos <= |s| && count > 0 && EntryAt(s, pos) == Step(Ok(e), q)
    ensures PlayersAt(s, pos, count) == Join([e], PlayersAt(s, q, count - 1))
  {
  }

  /** A list read whose first entry fails fails the same way. */
  lemma PlayersAtStop(s: seq<Byte>, pos: nat, count: nat)
    requires pos <= |s| && count > 0 && EntryAt(s, pos).result.Err?
    ensures PlayersAt(s, pos, count) == Step(Err(EntryAt(s, pos).result.error), EntryAt(s, pos).pos)
  {
  }

  /** One more entry read: the list read so far grows by it. */
  lemma PlayersReadOn(s: seq<Byte>, whole: Step<seq<(Byte, Text)>>, players: seq<(Byte, Text)>, pos: nat, k: nat, e: (Byte, Text), q: nat)
    requires pos <= |s| && k > 0 && EntryAt(s, pos) == Step(Ok(e), q)
    requires whole == Join(players, PlayersAt(s, pos, k))
    ensures whole == Join(players + [e], PlayersAt(s, q, k - 1))
  {
    PlayersAtNext(s, pos, k, e, q);
    JoinAssoc(players, e, PlayersAt(s, q, k - 1));
  }

  class PacketReader {
    const senderId: Byte
    /** The bytes the connection delivers, from the first to the last. */
    const stream: seq<Byte>
    const queue: PacketQueue
    /** How much of the stream has been consumed. */
    var pos: nat

    constructor(stream: seq<Byte>, senderId: Byte, queue: PacketQueue)
      ensures this.stream == stream && this.senderId == senderId && this.queue == queue && pos == 0
    {
      this.stream := stream;
      this.senderId := senderId;
      this.queue := queue;
      pos := 0;
    }

    predicate Valid()
      reads this
    {
      pos <= |stream|
    }

    // Field readers (`BinaryReader`)

    method ReadByte() returns (r: Result<Byte>)
      requires Valid()
      modifies this
      ensures Valid() && Step(r, pos) == ByteAt(stream, old(pos))
    {
      if pos < |stream| {
        r := Ok(stream[pos]);
        pos := pos + 1;
      } else {
        r := Err(EndOfStream);
      }
    }

    method ReadBoolean() returns (r: Result<bool>)
      requires Valid()
      modifies this
      ensures Valid() && Step(r, pos) == BoolAt(stream, old(pos))
    {
      var b := ReadByte();
      r := if b.Ok? then Ok(b.value != 0) else Err(b.error);
    }

    method ReadUInt16() returns (r: Result<U16>)
      requires Valid()
      modifies this
      ensures Valid() && Step(r, pos) == U16At(stream, old(pos))
    {
      if pos + 2 <= |stream| {
        r := Ok(FromLe16(stream[pos], stream[pos + 1]));
        pos := pos + 2;
      } else {
        r := Err(EndOfStream);
        pos := |stream|;
      }
    }

    method ReadInt32() returns (r: Result<I32>)
      requires Valid()
      modifies this
      ensures Valid() && Step(r, pos) == I32At(stream, old(pos))
    {
      if pos + 4 <= |stream| {
        r := Ok(FromLe32(stream[pos], stream[pos + 1], stream[pos + 2], stream[pos + 3]));
        pos := pos + 4;
      } else {
        r := Err(EndOfStream);
        pos := |stream|;
      }
    }

    method ReadBytes(n: I32) returns (r: Result<seq<Byte>>)
      requires Valid()
      modifies this
      ensures Valid() && Step(r, pos) == BytesAt(stream, old(pos), n)
    {
      if n < 0 {
        r := Err(ArgumentOutOfRange);
      } else if pos + n <= |stream| {
        r := Ok(stream[pos..pos + n]);
        pos := pos + n;
      } else {
        r := Ok(stream[pos..]);
        pos := |stream|;
      }
    }

    /** An int32 byte count, then that many bytes decoded as UTF-8. */
    method ReadString() returns (r: Result<Text>)
      requires Valid()
      modifies this
      ensures Valid() && Step(r, pos) == StringAt(stream, old(pos))
    {
      var length := ReadInt32();
      if length.Err? {
        return Err(length.error);
      }
      var bytes := ReadBytes(length.value);
      if bytes.Err? {
        return Err(bytes.error);
      }
      r := Ok(Utf8Decode(bytes.value));
    }

    // Packet readers

    method ReadByteMessage(op: Byte) returns (r: Result<Message>)
      requires Valid() && op in {0, 4, 7, 9, 12, 16, 18, 19}
      modifies this
      ensures Valid() && Step(r, pos) == ByteMessageAt(op, stream, old(pos))
    {
      var b := ReadByte();
      if b.Err? {
        return Err(b.error);
      }
      var v := b.value;
      r := Ok(match op
        case 0 => AssignId(v)
        case 4 => Disconnection(v)
        case 7 => StartTurn(v)
        case 9 => DrawResult(v)
        case 12 => DiscardResult(v)
        case 16 => PeekResult(v)
        case 18 => Scramble(v)
        case _ => DisplayScramble(v));
    }

    method ReadIdMessage(op: Byte) returns (r: Result<Message>)
      requires Valid() && op in {15, 17}
      modifies this
      ensures Valid() && Step(r, pos) == IdMessageAt(op, stream, old(pos))
    {
      var id := ReadUInt16();
      if id.Err? {
        return Err(id.error);
      }
      r := Ok(if op == 15 then Peek(id.value) else DisplayPeek(id.value));
    }

    method ReadTwoIdMessage(op: Byte) returns (r: Result<Message>)
      requires Valid() && op in {13, 14}
      modifies this
      ensures Valid() && Step(r, pos) == TwoIdMessageAt(op, stream, old(pos))
    {
      var a := ReadUInt16();
      if a.Err? {
        return Err(a.error);
      }
      var b := ReadUInt16();
      if b.Err? {
        return Err(b.error);
      }
      r := Ok(if op == 13 then Swap(a.value, b.value) else DisplaySwap(a.value, b.value));
    }

    method ReadConnect() returns (r: Result<Message>)
      requires Valid()
      modifies this
      ensures Valid() && Step(r, pos) == ConnectAt(stream, old(pos))
    {
      var name := ReadString();
      if name.Err? {
        return Err(name.error);
      }
      r := Ok(Connect(name.value));
    }

    /** The error byte is read only after a false success flag. */
    method ReadConnectionResponse() returns (r: Result<Message>)
      requires Valid()
      modifies this
      ensures Valid() && Step(r, pos) == ConnectionResponseAt(stream, old(pos))
    {
      var success := ReadBoolean();
      if success.Err? {
        return Err(success.error);
      }
      if success.value {
        return Ok(ConnectionResponse(true, None));
      }
      var error := ReadByte();
      if error.Err? {
        return Err(error.error);
      }
      r := Ok(ConnectionResponse(false, Some(error.value)));
    }

    /** One user entry of InitialiseGame: the id byte, then the name. */
    method ReadEntry() returns (r: Result<(Byte, Text)>)
      requires Valid()
      modifies this
      ensures Valid() && Step(r, pos) == EntryAt(stream, old(pos))
    {
      var id := ReadByte();
      if id.Err? {
        return Err(id.error);
      }
      var name := ReadString();
      if name.Err? {
        return Err(name.error);
      }
      r := Ok((id.value, name.value));
    }

    /** One pass of the entry loop: the entry read is added to `players`, or the read ends with its failure. */
    method ReadNextEntry(ghost whole: Step<seq<(Byte, Text)>>, players: seq<(Byte, Text)>, left: nat)
      returns (r: Result<seq<(Byte, Text)>>, remaining: nat)
      requires Valid() && left > 0 && whole == Join(players, PlayersAt(stream, pos, left))
      modifies this
      ensures Valid() && remaining == left - 1
      ensures r.Ok? ==> whole == Join(r.value, PlayersAt(stream, pos, remaining))
      ensures r.Err? ==> whole == Step(Err(r.error), pos)
    {
      ghost var before := pos;
      var entry := ReadEntry();
      if entry.Err? {
        PlayersAtStop(stream, before, left);
        return Err(entry.error), left - 1;
      }
      PlayersReadOn(stream, whole, players, before, left, entry.value, pos);
      r, remaining := Ok(players + [entry.value]), left - 1;
    }

    /** `count` user entries, each an id byte and a name. */
    method ReadPlayers(count: Byte) returns (r: Result<seq<(Byte, Text)>>)
      requires Valid()
      modifies this
      ensures Valid() && Step(r, pos) == PlayersAt(stream, old(pos), count)
    {
      var players: seq<(Byte, Text)> := [];
      var left: nat := count;
      ghost var whole := PlayersAt(stream, pos, count);
      JoinNothing(whole);
      while left > 0
        invariant Valid()
        invariant whole == Join(players, PlayersAt(stream, pos, left))
      {
        var next, remaining := ReadNextEntry(whole, players, left);
        if next.Err? {
          return Err(next.error);
        }
        players, left := next.value, remaining;
      }
      assert players + [] == players;
      r := Ok(players);
    }

    method ReadInitialiseGame() returns (r: Result<Message>)
      requires Valid()
      modifies this
      ensures Valid() && Step(r, pos) == InitialiseGameAt(stream, old(pos))
    {
      var startingCards := ReadInt32();
      if startingCards.Err? {
        return Err(startingCards.error);
      }
      var deckSize := ReadInt32();
      if deckSize.Err? {
        return Err(deckSize.error);
      }
      var turnTimeLimit := ReadInt32();
      if turnTimeLimit.Err? {
        return Err(turnTimeLimit.error);
      }
      var playerCount := ReadByte();
      if playerCount.Err? {
        return Err(playerCount.error);
      }
      var players := ReadPlayers(playerCount.value);
      if players.Err? {
        return Err(players.error);
      }
      r := Ok(InitialiseGame(startingCards.value, deckSize.value, turnTimeLimit.value, players.value));
    }

    method ReadQuickPlace() returns (r: Result<Message>)
      requires Valid()
      modifies this
      ensures Valid() && Step(r, pos) == QuickPlaceAt(stream, old(pos))
    {
      var cardId := ReadUInt16();
      if cardId.Err? {
        return Err(cardId.error);
      }
      var seenDiscard := ReadByte();
      if seenDiscard.Err? {
        return Err(seenDiscard.error);
      }
      r := Ok(QuickPlace(cardId.value, seenDiscard.value));
    }

    method ReadQuickPlaceResult() returns (r: Result<Message>)
      requires Valid()
      modifies this
      ensures Valid() && Step(r, pos) == QuickPlaceResultAt(stream, old(pos))
    {
      var outcome := ReadByte();
      if outcome.Err? {
        return Err(outcome.error);
      }
      var playerId := ReadByte();
      if playerId.Err? {
        return Err(playerId.error);
      }
      var cardValue := ReadByte();
      if cardValue.Err? {
        return Err(cardValue.error);
      }
      r := Ok(QuickPlaceResult(outcome.value, playerId.value, cardValue.value));
    }

    /** `count` score entries, each an id byte and an int32. */
    method ReadScores(count: Byte) returns (r: Result<seq<(Byte, I32)>>)
      requires Valid()
      modifies this
      ensures Valid() && Step(r, pos) == ScoresAt(stream, old(pos), count)
    {
      var scores: seq<(Byte, I32)> := [];
      var i := 0;
      JoinNothing(ScoresAt(stream, pos, count));
      while i < count
        invariant Valid() && 0 <= i <= count
        invariant ScoresAt(stream, old(pos), count) == Join(scores, ScoresAt(stream, pos, count - i))
      {
        var playerId := ReadByte();
        if playerId.Err? {
          return Err(playerId.error);
        }
        var score := ReadInt32();
        if score.Err? {
          return Err(score.error);
        }
        JoinAssoc(scores, (playerId.value, score.value), ScoresAt(stream, pos, count - i - 1));
        scores := scores + [(playerId.value, score.value)];
        i := i + 1;
      }
      assert scores + [] == scores;
      r := Ok(scores);
    }

    method ReadGameEnd() returns (r: Result<Message>)
      requires Valid()
      modifies this
      ensures Valid() && Step(r, pos) == GameEndAt(stream, old(pos))
    {
      var playerCount := ReadByte();
      if playerCount.Err? {
        return Err(playerCount.error);
      }
      var scores := ReadScores(playerCount.value);
      if scores.Err? {
        return Err(scores.error);
      }
      r := Ok(GameEnd(scores.value));
    }

    /**
     * Reads the packet that `op` announces (the opcode itself already taken
     * from the stream) and queues it under this connection's id; a read that
     * throws queues nothing.
     */
    method Read(op: Byte) returns (error: Option<Error>)
      requires Valid()
      modifies this, queue
      ensures Valid()
      ensures var st := BodyAt(op, stream, old(pos));
        && pos == st.pos
        && (st.result.Ok? ==> error == None && queue.waiting == old(queue.waiting) + [Processed(senderId, st.result.value)])
        && (st.result.Err? ==> error == Some(st.result.error) && queue.waiting == old(queue.waiting))
    {
      var r: Result<Message>;
      if op in {0, 4, 7, 9, 12, 16, 18, 19} {
        r := ReadByteMessage(op);
      } else if op in {13, 14} {
        r := ReadTwoIdMessage(op);
      } else if op in {15, 17} {
        r := ReadIdMessage(op);
      } else if op == 1 {
        r := ReadConnect();
      } else if op == 2 {
        r := ReadConnectionResponse();
      } else if op == 3 {
        r := ReadInitialiseGame();
      } else if op == 5 {
        r := ReadQuickPlace();
      } else if op == 6 {
        r := ReadQuickPlaceResult();
      } else if op == 8 {
        r := Ok(Draw);
      } else if op == 10 {
        r := Ok(DisplayDraw);
      } else if op == 11 {
        r := Ok(Discard);
      } else if op == 20 {
        r := Ok(PassTurn);
      } else if op == 21 {
        r := Ok(ForceEndTurn);
      } else if op == 22 {
        r := Ok(CallIt);
      } else if op == 23 {
        r := Ok(CalledIt);
      } else if op == 24 {
        r := ReadGameEnd();
      } else {
        r := Err(InvalidOperation);
      }
      if r.Err? {
        return Some(r.error);
      }
      queue.ReadInternalPacket(Processed(senderId, r.value));
      error := None;
    }
  }
}
