/**
 * The wire format of the game's packets: an opcode byte followed by
 * fixed-width little-endian fields. `Encode` is what the packet writer
 * produces; the `...At` functions are the packet reader's cursor over the
 * bytes of a stream, each giving the value read and the new cursor position.
 */
module Wire {
  import opened Base

  // ---------------------------------------------------------------------
  // Text

  /** A Unicode scalar value: one character of a C# string, surrogate pairs combined. */
  type CodePoint = x: int | 0 <= x < 0xD800 || 0xE000 <= x < 0x11_0000

  type Text = seq<CodePoint>

  /** U+FFFD, which UTF-8 decoding puts in place of malformed bytes. */
  const ReplacementChar: CodePoint := 0xFFFD

  predicate IsAscii(t: Text)
  {
    forall i :: 0 <= i < |t| ==> t[i] < 0x80
  }

  /** C# `string.Length`: the number of UTF-16 code units. */
  function Utf16Length(t: Text): (n: nat)
    ensures |t| <= n <= 2 * |t|
    ensures IsAscii(t) ==> n == |t|
  {
    if t == [] then 0 else (if t[0] < 0x1_0000 then 1 else 2) + Utf16Length(t[1..])
  }

  /** The UTF-8 encoding of one character (RFC 3629, section 3). */
  function Utf8Char(c: CodePoint): (r: seq<Byte>)
    ensures 1 <= |r| <= 4
    ensures |r| == 1 <==> c < 0x80
    ensures c >= 0x1_0000 <==> |r| == 4
  {
    if c < 0x80 then [c]
    else if c < 0x800 then [0xC0 + c / 0x40, 0x80 + c % 0x40]
    else if c < 0x1_0000 then [0xE0 + c / 0x1000, 0x80 + c / 0x40 % 0x40, 0x80 + c % 0x40]
    else [0xF0 + c / 0x4_0000, 0x80 + c / 0x1000 % 0x40, 0x80 + c / 0x40 % 0x40, 0x80 + c % 0x40]
  }

  /** C# `Encoding.UTF8.GetBytes`. */
  function Utf8(t: Text): (r: seq<Byte>)
    ensures |t| <= |r|
  {
    if t == [] then [] else Utf8Char(t[0]) + Utf8(t[1..])
  }

  /** ASCII text is its own UTF-8 encoding, and never takes fewer bytes than UTF-16 units. */
  lemma {:induction false} Utf8Lengths(t: Text)
    ensures Utf16Length(t) <= |Utf8(t)|
    ensures IsAscii(t) ==> Utf8(t) == t
  {
    if t != [] {
      Utf8Lengths(t[1..]);
      if IsAscii(t) {
        assert IsAscii(t[1..]) by {
          forall i | 0 <= i < |t[1..]| ensures t[1..][i] < 0x80 {
            assert t[1..][i] == t[i + 1];
          }
        }
      }
    }
  }

  predicate IsContinuation(b: Byte)
  {
    0x80 <= b < 0xC0
  }

  /**
   * The first character of a non-empty byte string and the number of bytes it
   * takes; a byte that does not start a well-formed sequence becomes U+FFFD.
   */
  function DecodeOne(b: seq<Byte>): (r: (CodePoint, nat))
    requires |b| > 0
    ensures 1 <= r.1 <= |b|
  {
    var b0: int := b[0];
    var b1: int := if |b| > 1 then b[1] as int - 0x80 else 0;
    var b2: int := if |b| > 2 then b[2] as int - 0x80 else 0;
    var b3: int := if |b| > 3 then b[3] as int - 0x80 else 0;
    var v2 := (b0 - 0xC0) * 0x40 + b1;
    var v3 := (b0 - 0xE0) * 0x1000 + b1 * 0x40 + b2;
    var v4 := (b0 - 0xF0) * 0x4_0000 + b1 * 0x1000 + b2 * 0x40 + b3;
    if b0 < 0x80 then (b0, 1)
    else if 0xC2 <= b0 < 0xE0 && |b| >= 2 && IsContinuation(b[1]) then (v2, 2)
    else if 0xE0 <= b0 < 0xF0 && |b| >= 3 && IsContinuation(b[1]) && IsContinuation(b[2])
      && 0x800 <= v3 && (v3 < 0xD800 || 0xE000 <= v3) then (v3, 3)
    else if 0xF0 <= b0 < 0xF5 && |b| >= 4 && IsContinuation(b[1]) && IsContinuation(b[2]) && IsContinuation(b[3])
      && 0x1_0000 <= v4 < 0x11_0000 then (v4, 4)
    else (ReplacementChar, 1)
  }

  /** C# `Encoding.UTF8.GetString`. */
  function Utf8Decode(b: seq<Byte>): (t: Text)
    ensures |t| <= |b|
    decreases |b|
  {
    if b == [] then [] else [DecodeOne(b).0] + Utf8Decode(b[DecodeOne(b).1..])
  }

  /** Decoding reads back exactly the character that was encoded, whatever follows it. */
  lemma DecodeOneChar(c: CodePoint, rest: seq<Byte>)
    ensures DecodeOne(Utf8Char(c) + rest) == (c, |Utf8Char(c)|)
  {
    var b := Utf8Char(c) + rest;
    if c < 0x80 {
      assert b[0] == c;
    } else if c < 0x800 {
      assert b[0] == 0xC0 + c / 0x40 && b[1] == 0x80 + c % 0x40;
    } else if c < 0x1_0000 {
      DecodeThreeBytes(c, rest);
    } else {
      DecodeFourBytes(c, rest);
    }
  }

  lemma DecodeThreeBytes(c: CodePoint, rest: seq<Byte>)
    requires 0x800 <= c < 0x1_0000
    ensures DecodeOne(Utf8Char(c) + rest) == (c, 3)
  {
    var b := Utf8Char(c) + rest;
    var q := c / 0x40;
    assert c == q * 0x40 + c % 0x40;
    assert q == q / 0x40 * 0x40 + q % 0x40;
    assert q / 0x40 == c / 0x1000;
    assert b[0] == 0xE0 + c / 0x1000 && b[1] == 0x80 + q % 0x40 && b[2] == 0x80 + c % 0x40;
  }

  lemma DecodeFourBytes(c: CodePoint, rest: seq<Byte>)
    requires 0x1_0000 <= c
    ensures DecodeOne(Utf8Char(c) + rest) == (c, 4)
  {
    var b := Utf8Char(c) + rest;
    var q := c / 0x40;
    var q2 := q / 0x40;
    assert c == q * 0x40 + c % 0x40;
    assert q == q2 * 0x40 + q % 0x40;
    assert q2 == q2 / 0x40 * 0x40 + q2 % 0x40;
    assert q2 == c / 0x1000 && q2 / 0x40 == c / 0x4_0000;
    assert b[0] == 0xF0 + c / 0x4_0000 && b[1] == 0x80 + q2 % 0x40;
    assert b[2] == 0x80 + q % 0x40 && b[3] == 0x80 + c % 0x40;
  }

  /** UTF-8 decoding inverts UTF-8 encoding. */
  lemma {:induction false} Utf8RoundTrip(t: Text)
    ensures Utf8Decode(Utf8(t)) == t
  {
    if t != [] {
      var b := Utf8(t);
      assert b == Utf8Char(t[0]) + Utf8(t[1..]);
      DecodeOneChar(t[0], Utf8(t[1..]));
      assert b[|Utf8Char(t[0])|..] == Utf8(t[1..]);
      Utf8RoundTrip(t[1..]);
    }
  }

  // ---------------------------------------------------------------------
  // Fixed-width fields

  /** C# `BitConverter.GetBytes(bool)`. */
  function BoolByte(b: bool): Byte
  {
    if b then 1 else 0
  }

  function FromLe16(lo: Byte, hi: Byte): U16
  {
    lo + 0x100 * hi
  }

  function FromLe32(b0: Byte, b1: Byte, b2: Byte, b3: Byte): I32
  {
    var u := b0 + 0x100 * b1 + 0x1_0000 * b2 + 0x100_0000 * b3;
    if u < 0x8000_0000 then u else u - 0x1_0000_0000
  }

  /** C# `BitConverter.GetBytes(ushort)` on a little-endian machine. */
  function Le16(x: U16): (r: seq<Byte>)
    ensures |r| == 2 && FromLe16(r[0], r[1]) == x
  {
    [x % 0x100, x / 0x100]
  }

  /** C# `BitConverter.GetBytes(int)` on a little-endian machine: two's complement. */
  function Le32(x: I32): (r: seq<Byte>)
    ensures |r| == 4 && FromLe32(r[0], r[1], r[2], r[3]) == x
  {
    var u := if x < 0 then x + 0x1_0000_0000 else x;
    var q1 := u / 0x100;
    var q2 := q1 / 0x100;
    assert u == q1 * 0x100 + u % 0x100;
    assert q1 == q2 * 0x100 + q1 % 0x100;
    assert q2 == q2 / 0x100 * 0x100 + q2 % 0x100;
    [u % 0x100, q1 % 0x100, q2 % 0x100, q2 / 0x100]
  }

  predicate Sized(t: Text)
  {
    |Utf8(t)| < 0x8000_0000
  }

  /** A string field: its int32 UTF-8 byte count, then the bytes (the corrected length prefix). */
  function Str(t: Text): (r: seq<Byte>)
    requires Sized(t)
    ensures |r| == 4 + |Utf8(t)|
  {
    Le32(|Utf8(t)|) + Utf8(t)
  }

  /** A string field as the writer has it: the length prefix is `string.Length`, UTF-16 units. */
  function StrAsWritten(t: Text): (r: seq<Byte>)
    requires Sized(t)
    ensures |r| == 4 + |Utf8(t)|
  {
    Utf8Lengths(t);
    Le32(Utf16Length(t)) + Utf8(t)
  }

  /** For ASCII text the two length prefixes coincide, so the correction changes no ASCII packet. */
  lemma AsciiStrUnchanged(t: Text)
    requires Sized(t) && IsAscii(t)
    ensures StrAsWritten(t) == Str(t)
  {
    Utf8Lengths(t);
  }

  // ---------------------------------------------------------------------
  // Messages

  /** One packet's contents, by opcode (the processed-packet records without their sender). */
  datatype Message =
    | AssignId(id: Byte)
    | Connect(username: Text)
    | ConnectionResponse(success: bool, error: Option<Byte>)
    | InitialiseGame(startingCards: I32, deckSize: I32, turnTimeLimit: I32, players: seq<(Byte, Text)>)
    | Disconnection(disconnectedId: Byte)
    | QuickPlace(cardId: U16, seenDiscard: Byte)
    | QuickPlaceResult(outcome: Byte, playerId: Byte, cardValue: Byte)
    | StartTurn(playerId: Byte)
    | Draw
    | DrawResult(cardValue: Byte)
    | DisplayDraw
    | Discard
    | DiscardResult(cardValue: Byte)
    | Swap(cardId1: U16, cardId2: U16)
    | DisplaySwap(cardId1: U16, cardId2: U16)
    | Peek(cardId: U16)
    | PeekResult(cardValue: Byte)
    | DisplayPeek(cardId: U16)
    | Scramble(playerId: Byte)
    | DisplayScramble(playerId: Byte)
    | PassTurn
    | ForceEndTurn
    | CallIt
    | CalledIt
    | GameEnd(scores: seq<(Byte, I32)>)

  /** The `QuickPlaceSuccess` byte values. */
  const Success: Byte := 0
  const Failure: Byte := 1
  const TooLate: Byte := 2

  /** The `OpCode` byte of a message, in declaration order AssignId = 0 .. GameEnd = 24. */
  function OpCodeOf(m: Message): (op: Byte)
    ensures op <= 24
  {
    match m
    case AssignId(_) => 0
    case Connect(_) => 1
    case ConnectionResponse(_, _) => 2
    case InitialiseGame(_, _, _, _) => 3
    case Disconnection(_) => 4
    case QuickPlace(_, _) => 5
    case QuickPlaceResult(_, _, _) => 6
    case StartTurn(_) => 7
    case Draw => 8
    case DrawResult(_) => 9
    case DisplayDraw => 10
    case Discard => 11
    case DiscardResult(_) => 12
    case Swap(_, _) => 13
    case DisplaySwap(_, _) => 14
    case Peek(_) => 15
    case PeekResult(_) => 16
    case DisplayPeek(_) => 17
    case Scramble(_) => 18
    case DisplayScramble(_) => 19
    case PassTurn => 20
    case ForceEndTurn => 21
    case CallIt => 22
    case CalledIt => 23
    case GameEnd(_) => 24
  }

  /** Messages that consist of their opcode alone. */
  predicate OpCodeOnly(m: Message)
  {
    m.Draw? || m.DisplayDraw? || m.Discard? || m.PassTurn? || m.ForceEndTurn? || m.CallIt? || m.CalledIt?
  }

  predicate SizedPlayers(ps: seq<(Byte, Text)>)
  {
    ps == [] || (Sized(ps[0].1) && SizedPlayers(ps[1..]))
  }

  /** What the writer accepts: strings that fit an int, and a failed connection response carries an error. */
  predicate Writable(m: Message)
  {
    match m
    case Connect(name) => Sized(name)
    case ConnectionResponse(success, error) => success || error.Some?
    case InitialiseGame(_, _, _, ps) => SizedPlayers(ps)
    case _ => true
  }

  /** The user entries of InitialiseGame: an id byte and a name each (length prefix as written), in list order. */
  function Players(ps: seq<(Byte, Text)>): (r: seq<Byte>)
    requires SizedPlayers(ps)
    ensures |r| >= 5 * |ps|
  {
    if ps == [] then [] else [ps[0].0] + StrAsWritten(ps[0].1) + Players(ps[1..])
  }

  /** Every user name is ASCII, the names whose length prefix is right as written. */
  predicate AsciiPlayers(ps: seq<(Byte, Text)>)
  {
    forall i :: 0 <= i < |ps| ==> IsAscii(ps[i].1)
  }

  /** The strings a message carries are ASCII. */
  predicate AsciiNames(m: Message)
  {
    match m
    case Connect(name) => IsAscii(name)
    case InitialiseGame(_, _, _, ps) => AsciiPlayers(ps)
    case _ => true
  }

  /** The score entries of GameEnd: an id byte and an int32 each, in list order. */
  function Scores(sc: seq<(Byte, I32)>): (r: seq<Byte>)
    ensures |r| == 5 * |sc|
  {
    if sc == [] then [] else [sc[0].0] + Le32(sc[0].1) + Scores(sc[1..])
  }

  /** Bytes appended in steps are the bytes appended at once. */
  lemma Assoc(a: seq<Byte>, b: seq<Byte>, c: seq<Byte>)
    ensures a + b + c == a + (b + c)
  {
  }

  /** Writing two user lists one after the other writes the joined list. */
  lemma {:induction false} PlayersConcat(a: seq<(Byte, Text)>, b: seq<(Byte, Text)>)
    ensures SizedPlayers(a + b) <==> SizedPlayers(a) && SizedPlayers(b)
    ensures SizedPlayers(a + b) ==> Players(a + b) == Players(a) + Players(b)
    decreases |a|
  {
    if a == [] {
      assert a + b == b;
    } else {
      assert (a + b)[0] == a[0];
      assert (a + b)[1..] == a[1..] + b;
      PlayersConcat(a[1..], b);
    }
  }

  /** Writing two score lists one after the other writes the joined list. */
  lemma {:induction false} ScoresConcat(a: seq<(Byte, I32)>, b: seq<(Byte, I32)>)
    ensures Scores(a + b) == Scores(a) + Scores(b)
    decreases |a|
  {
    if a == [] {
      assert a + b == b;
    } else {
      assert (a + b)[0] == a[0];
      assert (a + b)[1..] == a[1..] + b;
      ScoresConcat(a[1..], b);
    }
  }

  /** Cutting a list before and after its `i`-th element. */
  lemma SliceSnoc<T>(xs: seq<T>, i: nat)
    requires i < |xs|
    ensures xs[..i] + [xs[i]] == xs[..i + 1] && xs[..i + 1] + xs[i + 1..] == xs
  {
  }

  lemma PlayersOne(e: (Byte, Text))
    requires Sized(e.1)
    ensures SizedPlayers([e]) && Players([e]) == [e.0] + StrAsWritten(e.1)
  {
    assert [e][1..] == [];
  }

  /** Writing the entries of a list one at a time writes the whole list. */
  lemma PlayersSnoc(ps: seq<(Byte, Text)>, i: nat)
    requires SizedPlayers(ps) && i < |ps|
    ensures Sized(ps[i].1) && SizedPlayers(ps[..i]) && SizedPlayers(ps[..i + 1])
    ensures Players(ps[..i + 1]) == Players(ps[..i]) + ([ps[i].0] + StrAsWritten(ps[i].1))
  {
    var front, e, back := ps[..i], ps[i], ps[i + 1..];
    SliceSnoc(ps, i);
    PlayersConcat(front + [e], back);
    PlayersConcat(front, [e]);
    PlayersOne(e);
  }

  lemma ScoresSnoc(sc: seq<(Byte, I32)>, i: nat)
    requires i < |sc|
    ensures Scores(sc[..i + 1]) == Scores(sc[..i]) + ([sc[i].0] + Le32(sc[i].1))
  {
    SliceSnoc(sc, i);
    ScoresConcat(sc[..i], [sc[i]]);
    assert Scores([sc[i]]) == [sc[i].0] + Le32(sc[i].1) + Scores([]);
  }

  /** The bytes the packet writer produces for a message, string length prefixes as written. */
  function Encode(m: Message): (r: seq<Byte>)
    requires Writable(m)
    ensures |r| >= 1 && r[0] == OpCodeOf(m)
  {
    [OpCodeOf(m)] + Fields(m)
  }

  /** The fields that follow the opcode, in the writer's order. */
  function Fields(m: Message): seq<Byte>
    requires Writable(m)
  {
    match m
    case AssignId(id) => [id]
    case Connect(name) => StrAsWritten(name)
    case ConnectionResponse(success, error) => [BoolByte(success)] + (if success then [] else [error.value])
    case InitialiseGame(sc, ds, tl, ps) => Le32(sc) + Le32(ds) + Le32(tl) + [TruncByte(|ps|)] + Players(ps)
    case Disconnection(id) => [id]
    case QuickPlace(id, seen) => Le16(id) + [seen]
    case QuickPlaceResult(outcome, id, v) => [outcome, id, v]
    case StartTurn(id) => [id]
    case Draw => []
    case DrawResult(v) => [v]
    case DisplayDraw => []
    case Discard => []
    case DiscardResult(v) => [v]
    case Swap(a, b) => Le16(a) + Le16(b)
    case DisplaySwap(a, b) => Le16(a) + Le16(b)
    case Peek(id) => Le16(id)
    case PeekResult(v) => [v]
    case DisplayPeek(id) => Le16(id)
    case Scramble(id) => [id]
    case DisplayScramble(id) => [id]
    case PassTurn => []
    case ForceEndTurn => []
    case CallIt => []
    case CalledIt => []
    case GameEnd(sc) => [TruncByte(|sc|)] + Scores(sc)
  }

  /** The layout of the packets with strings or lists. */
  lemma ConnectLayout(m: Message)
    requires m.Connect? && Writable(m)
    ensures Encode(m) == [1] + StrAsWritten(m.username)
  {
  }

  lemma InitialiseGameLayout(m: Message)
    requires m.InitialiseGame? && Writable(m)
    ensures Encode(m) == [3] + Le32(m.startingCards) + Le32(m.deckSize) + Le32(m.turnTimeLimit)
      + [TruncByte(|m.players|)] + Players(m.players)
  {
  }

  lemma GameEndLayout(m: Message)
    requires m.GameEnd?
    ensures Encode(m) == [24] + [TruncByte(|m.scores|)] + Scores(m.scores)
  {
  }

  /** Packet sizes follow from the field widths: bool, byte and enum 1, ushort 2, int 4. */
  lemma EncodedSizes(m: Message)
    requires Writable(m)
    ensures OpCodeOnly(m) <==> |Encode(m)| == 1
    ensures (m.Swap? || m.DisplaySwap?) ==> |Encode(m)| == 5
    ensures m.QuickPlace? ==> |Encode(m)| == 4
    ensures m.ConnectionResponse? ==> |Encode(m)| == if m.success then 2 else 3
    ensures m.GameEnd? ==> |Encode(m)| == 2 + 5 * |m.scores|
    ensures m.Connect? && IsAscii(m.username) ==> |Encode(m)| == 5 + |m.username|
  {
    assert Encode(m) == [OpCodeOf(m)] + Fields(m);
    if m.Connect? {
      Utf8Lengths(m.username);
    }
  }

  // ---------------------------------------------------------------------
  // Reading

  /** The outcome of one read: a value or the exception raised, and where the cursor ends up. */
  datatype Step<+T> = Step(result: Result<T>, pos: nat)

  function Fail<T, U>(st: Step<T>): Step<U>
    requires st.result.Err?
  {
    Step(Err(st.result.error), st.pos)
  }

  /** `BinaryReader.ReadByte`. */
  function ByteAt(s: seq<Byte>, pos: nat): (r: Step<Byte>)
    requires pos <= |s|
    ensures pos <= r.pos <= |s|
    ensures r.result.Ok? <==> pos < |s|
    ensures r.result.Ok? ==> r.result.value == s[pos] && r.pos == pos + 1
    ensures r.result.Err? ==> r.result.error == EndOfStream
  {
    if pos < |s| then Step(Ok(s[pos]), pos + 1) else Step(Err(EndOfStream), pos)
  }

  /** `BinaryReader.ReadBoolean`: any non-zero byte is true. */
  function BoolAt(s: seq<Byte>, pos: nat): (r: Step<bool>)
    requires pos <= |s|
    ensures pos <= r.pos <= |s|
    ensures r.result.Ok? <==> pos < |s|
    ensures r.result.Ok? ==> r.result.value == (s[pos] != 0) && r.pos == pos + 1
  {
    if pos < |s| then Step(Ok(s[pos] != 0), pos + 1) else Step(Err(EndOfStream), pos)
  }

  /** `BinaryReader.ReadUInt16`; at the end of the stream what is left is consumed. */
  function U16At(s: seq<Byte>, pos: nat): (r: Step<U16>)
    requires pos <= |s|
    ensures pos <= r.pos <= |s|
    ensures r.result.Ok? <==> pos + 2 <= |s|
    ensures r.result.Ok? ==> r.pos == pos + 2
  {
    if pos + 2 <= |s| then Step(Ok(FromLe16(s[pos], s[pos + 1])), pos + 2)
    else Step(Err(EndOfStream), |s|)
  }

  /** `BinaryReader.ReadInt32`. */
  function I32At(s: seq<Byte>, pos: nat): (r: Step<I32>)
    requires pos <= |s|
    ensures pos <= r.pos <= |s|
    ensures r.result.Ok? <==> pos + 4 <= |s|
    ensures r.result.Ok? ==> r.pos == pos + 4
  {
    if pos + 4 <= |s| then Step(Ok(FromLe32(s[pos], s[pos + 1], s[pos + 2], s[pos + 3])), pos + 4)
    else Step(Err(EndOfStream), |s|)
  }

  /** `BinaryReader.ReadBytes(n)`: a negative count throws; near the end it returns fewer bytes. */
  function BytesAt(s: seq<Byte>, pos: nat, n: I32): (r: Step<seq<Byte>>)
    requires pos <= |s|
    ensures pos <= r.pos <= |s|
    ensures r.result.Err? <==> n < 0
    ensures r.result.Err? ==> r.result.error == ArgumentOutOfRange && r.pos == pos
    ensures r.result.Ok? ==> r.result.value == s[pos..r.pos] && (r.pos == pos + n || r.pos == |s|)
  {
    if n < 0 then Step(Err(ArgumentOutOfRange), pos)
    else if pos + n <= |s| then Step(Ok(s[pos..pos + n]), pos + n)
    else Step(Ok(s[pos..]), |s|)
  }

  /** The reader's `ReadString`: an int32 byte count, then that many bytes decoded as UTF-8. */
  function StringAt(s: seq<Byte>, pos: nat): (r: Step<Text>)
    requires pos <= |s|
    ensures pos <= r.pos <= |s|
  {
    var len := I32At(s, pos);
    if len.result.Err? then Fail(len)
    else
      var bytes := BytesAt(s, len.pos, len.result.value);
      if bytes.result.Err? then Fail(bytes)
      else Step(Ok(Utf8Decode(bytes.result.value)), bytes.pos)
  }

  /** One user entry of InitialiseGame: the id byte, then the name. */
  function EntryAt(s: seq<Byte>, pos: nat): (r: Step<(Byte, Text)>)
    requires pos <= |s|
    ensures pos <= r.pos <= |s|
  {
    var id := ByteAt(s, pos);
    if id.result.Err? then Fail(id)
    else
      var name := StringAt(s, id.pos);
      if name.result.Err? then Fail(name)
      else Step(Ok((id.result.value, name.result.value)), name.pos)
  }

  /** `count` user entries of InitialiseGame. */
  function PlayersAt(s: seq<Byte>, pos: nat, count: nat): (r: Step<seq<(Byte, Text)>>)
    requires pos <= |s|
    ensures pos <= r.pos <= |s|
    ensures r.result.Ok? ==> |r.result.value| == count
    decreases count
  {
    if count == 0 then Step(Ok([]), pos)
    else
      var entry := EntryAt(s, pos);
      if entry.result.Err? then Fail(entry)
      else
        var rest := PlayersAt(s, entry.pos, count - 1);
        if rest.result.Err? then Fail(rest)
        else Step(Ok([entry.result.value] + rest.result.value), rest.pos)
  }

  /** `count` score entries of GameEnd. */
  function ScoresAt(s: seq<Byte>, pos: nat, count: nat): (r: Step<seq<(Byte, I32)>>)
    requires pos <= |s|
    ensures pos <= r.pos <= |s|
    ensures r.result.Ok? ==> |r.result.value| == count && r.pos == pos + 5 * count
    decreases count
  {
    if count == 0 then Step(Ok([]), pos)
    else
      var id := ByteAt(s, pos);
      if id.result.Err? then Fail(id)
      else
        var score := I32At(s, id.pos);
        if score.result.Err? then Fail(score)
        else
          var rest := ScoresAt(s, score.pos, count - 1);
          if rest.result.Err? then Fail(rest)
          else Step(Ok([(id.result.value, score.result.value)] + rest.result.value), rest.pos)
  }

  /** The packets whose one field is a byte: AssignId, Disconnection, StartTurn, DrawResult, DiscardResult, PeekResult, Scramble, DisplayScramble. */
  function ByteMessageAt(op: Byte, s: seq<Byte>, pos: nat): (r: Step<Message>)
    requires pos <= |s|
    requires op in {0, 4, 7, 9, 12, 16, 18, 19}
    ensures pos <= r.pos <= |s|
    ensures r.result.Ok? ==> OpCodeOf(r.result.value) == op
  {
    var b := ByteAt(s, pos);
    if b.result.Err? then Fail(b)
    else
      var v := b.result.value;
      var m := match op
        case 0 => AssignId(v)
        case 4 => Disconnection(v)
        case 7 => StartTurn(v)
        case 9 => DrawResult(v)
        case 12 => DiscardResult(v)
        case 16 => PeekResult(v)
        case 18 => Scramble(v)
        case _ => DisplayScramble(v);
      Step(Ok(m), b.pos)
  }

  /** The packets whose one field is a card id: Peek and DisplayPeek. */
  function IdMessageAt(op: Byte, s: seq<Byte>, pos: nat): (r: Step<Message>)
    requires pos <= |s|
    requires op in {15, 17}
    ensures pos <= r.pos <= |s|
    ensures r.result.Ok? ==> OpCodeOf(r.result.value) == op
  {
    var id := U16At(s, pos);
    if id.result.Err? then Fail(id)
    else if op == 15 then Step(Ok(Peek(id.result.value)), id.pos)
    else Step(Ok(DisplayPeek(id.result.value)), id.pos)
  }

  /** Swap and DisplaySwap: two card ids. */
  function TwoIdMessageAt(op: Byte, s: seq<Byte>, pos: nat): (r: Step<Message>)
    requires pos <= |s|
    requires op in {13, 14}
    ensures pos <= r.pos <= |s|
    ensures r.result.Ok? ==> OpCodeOf(r.result.value) == op
  {
    var a := U16At(s, pos);
    if a.result.Err? then Fail(a)
    else
      var b := U16At(s, a.pos);
      if b.result.Err? then Fail(b)
      else if op == 13 then Step(Ok(Swap(a.result.value, b.result.value)), b.pos)
      else Step(Ok(DisplaySwap(a.result.value, b.result.value)), b.pos)
  }

  function ConnectAt(s: seq<Byte>, pos: nat): (r: Step<Message>)
    requires pos <= |s|
    ensures pos <= r.pos <= |s|
    ensures r.result.Ok? ==> r.result.value.Connect?
  {
    var name := StringAt(s, pos);
    if name.result.Err? then Fail(name) else Step(Ok(Connect(name.result.value)), name.pos)
  }

  /** The error byte follows only a false success flag. */
  function ConnectionResponseAt(s: seq<Byte>, pos: nat): (r: Step<Message>)
    requires pos <= |s|
    ensures pos <= r.pos <= |s|
    ensures r.result.Ok? ==> r.result.value.ConnectionResponse?
    ensures r.result.Ok? ==> (r.result.value.success <==> r.result.value.error.None?)
  {
    var success := BoolAt(s, pos);
    if success.result.Err? then Fail(success)
    else if success.result.value then Step(Ok(ConnectionResponse(true, None)), success.pos)
    else
      var error := ByteAt(s, success.pos);
      if error.result.Err? then Fail(error)
      else Step(Ok(ConnectionResponse(false, Some(error.result.value))), error.pos)
  }

  function InitialiseGameAt(s: seq<Byte>, pos: nat): (r: Step<Message>)
    requires pos <= |s|
    ensures pos <= r.pos <= |s|
    ensures r.result.Ok? ==> r.result.value.InitialiseGame?
  {
    var sc := I32At(s, pos);
    if sc.result.Err? then Fail(sc)
    else
      var ds := I32At(s, sc.pos);
      if ds.result.Err? then Fail(ds)
      else
        var tl := I32At(s, ds.pos);
        if tl.result.Err? then Fail(tl)
        else
          var count := ByteAt(s, tl.pos);
          if count.result.Err? then Fail(count)
          else
            var ps := PlayersAt(s, count.pos, count.result.value);
            if ps.result.Err? then Fail(ps)
            else Step(Ok(InitialiseGame(sc.result.value, ds.result.value, tl.result.value, ps.result.value)), ps.pos)
  }

  function QuickPlaceAt(s: seq<Byte>, pos: nat): (r: Step<Message>)
    requires pos <= |s|
    ensures pos <= r.pos <= |s|
    ensures r.result.Ok? ==> r.result.value.QuickPlace?
  {
    var id := U16At(s, pos);
    if id.result.Err? then Fail(id)
    else
      var seen := ByteAt(s, id.pos);
      if seen.result.Err? then Fail(seen)
      else Step(Ok(QuickPlace(id.result.value, seen.result.value)), seen.pos)
  }

  function QuickPlaceResultAt(s: seq<Byte>, pos: nat): (r: Step<Message>)
    requires pos <= |s|
    ensures pos <= r.pos <= |s|
    ensures r.result.Ok? ==> r.result.value.QuickPlaceResult?
  {
    var outcome := ByteAt(s, pos);
    if outcome.result.Err? then Fail(outcome)
    else
      var id := ByteAt(s, outcome.pos);
      if id.result.Err? then Fail(id)
      else
        var v := ByteAt(s, id.pos);
        if v.result.Err? then Fail(v)
        else Step(Ok(QuickPlaceResult(outcome.result.value, id.result.value, v.result.value)), v.pos)
  }

  function GameEndAt(s: seq<Byte>, pos: nat): (r: Step<Message>)
    requires pos <= |s|
    ensures pos <= r.pos <= |s|
    ensures r.result.Ok? ==> r.result.value.GameEnd?
  {
    var count := ByteAt(s, pos);
    if count.result.Err? then Fail(count)
    else
      var sc := ScoresAt(s, count.pos, count.result.value);
      if sc.result.Err? then Fail(sc) else Step(Ok(GameEnd(sc.result.value)), sc.pos)
  }

  /** The reader's `Read(opCode)`: the fields that follow an opcode already taken from the stream. */
  function BodyAt(op: Byte, s: seq<Byte>, pos: nat): (r: Step<Message>)
    requires pos <= |s|
    ensures pos <= r.pos <= |s|
    ensures r.result.Ok? ==> OpCodeOf(r.result.value) == op
    ensures op > 24 ==> r == Step(Err(InvalidOperation), pos)
  {
    if op in {0, 4, 7, 9, 12, 16, 18, 19} then ByteMessageAt(op, s, pos)
    else if op in {13, 14} then TwoIdMessageAt(op, s, pos)
    else if op in {15, 17} then IdMessageAt(op, s, pos)
    else if op == 1 then ConnectAt(s, pos)
    else if op == 2 then ConnectionResponseAt(s, pos)
    else if op == 3 then InitialiseGameAt(s, pos)
    else if op == 5 then QuickPlaceAt(s, pos)
    else if op == 6 then QuickPlaceResultAt(s, pos)
    else if op == 8 then Step(Ok(Draw), pos)
    else if op == 10 then Step(Ok(DisplayDraw), pos)
    else if op == 11 then Step(Ok(Discard), pos)
    else if op == 20 then Step(Ok(PassTurn), pos)
    else if op == 21 then Step(Ok(ForceEndTurn), pos)
    else if op == 22 then Step(Ok(CallIt), pos)
    else if op == 23 then Step(Ok(CalledIt), pos)
    else if op == 24 then GameEndAt(s, pos)
    else Step(Err(InvalidOperation), pos)
  }

  /** Taking the opcode byte from the stream and then the packet it announces. */
  function MessageAt(s: seq<Byte>, pos: nat): (r: Step<Message>)
    requires pos <= |s|
    ensures pos <= r.pos <= |s|
    ensures r.result.Ok? ==> pos < |s| && OpCodeOf(r.result.value) == s[pos]
  {
    var op := ByteAt(s, pos);
    if op.result.Err? then Fail(op) else BodyAt(op.result.value, s, op.pos)
  }

  // ---------------------------------------------------------------------
  // Round trip

  /** The stream holds the bytes `w` from position `pos` on. */
  predicate Holds(s: seq<Byte>, pos: nat, w: seq<Byte>)
    decreases |w|
  {
    pos + |w| <= |s| && (w == [] || (s[pos] == w[0] && Holds(s, pos + 1, w[1..])))
  }

  lemma {:induction false} HoldsIndex(s: seq<Byte>, pos: nat, w: seq<Byte>, i: nat)
    requires Holds(s, pos, w) && i < |w|
    ensures s[pos + i] == w[i]
    decreases i
  {
    if i > 0 {
      HoldsIndex(s, pos + 1, w[1..], i - 1);
    }
  }

  /** A stream holds what agrees with it byte for byte. */
  lemma {:induction false} HoldsBytes(s: seq<Byte>, pos: nat, w: seq<Byte>)
    requires pos + |w| <= |s|
    requires forall i :: 0 <= i < |w| ==> s[pos + i] == w[i]
    ensures Holds(s, pos, w)
    decreases |w|
  {
    if w != [] {
      assert s[pos + 0] == w[0];
      forall i | 0 <= i < |w| - 1
        ensures s[pos + 1 + i] == w[1..][i]
      {
        assert s[pos + (i + 1)] == w[i + 1];
      }
      HoldsBytes(s, pos + 1, w[1..]);
    }
  }

  /** Bytes written one after the other are found one after the other. */
  lemma {:induction false} HoldsSplit(s: seq<Byte>, pos: nat, a: seq<Byte>, b: seq<Byte>)
    requires Holds(s, pos, a + b)
    ensures Holds(s, pos, a) && Holds(s, pos + |a|, b)
    decreases |a|
  {
    if a == [] {
      assert a + b == b;
    } else {
      assert (a + b)[0] == a[0];
      assert (a + b)[1..] == a[1..] + b;
      HoldsSplit(s, pos + 1, a[1..], b);
    }
  }

  lemma HoldsSlice(s: seq<Byte>, pos: nat, w: seq<Byte>)
    requires Holds(s, pos, w)
    ensures s[pos..pos + |w|] == w
  {
    forall i | 0 <= i < |w|
      ensures s[pos..pos + |w|][i] == w[i]
    {
      HoldsIndex(s, pos, w, i);
    }
  }

  lemma U16RoundTrip(s: seq<Byte>, pos: nat, x: U16)
    requires Holds(s, pos, Le16(x))
    ensures U16At(s, pos) == Step(Ok(x), pos + 2)
  {
    assert s[pos + 0] == Le16(x)[0] && s[pos + 1] == Le16(x)[1];
  }

  lemma I32RoundTrip(s: seq<Byte>, pos: nat, x: I32)
    requires Holds(s, pos, Le32(x))
    ensures I32At(s, pos) == Step(Ok(x), pos + 4)
  {
    var w := Le32(x);
    HoldsIndex(s, pos, w, 2);
    HoldsIndex(s, pos, w, 3);
    assert s[pos + 0] == w[0] && s[pos + 1] == w[1] && s[pos + 2] == w[2] && s[pos + 3] == w[3];
  }

  /** A string field reads back as the text written, whatever its characters. */
  lemma StringRoundTrip(s: seq<Byte>, pos: nat, t: Text)
    requires Sized(t) && Holds(s, pos, Str(t))
    ensures StringAt(s, pos) == Step(Ok(t), pos + |Str(t)|)
  {
    var n := |Utf8(t)|;
    HoldsSplit(s, pos, Le32(n), Utf8(t));
    I32RoundTrip(s, pos, n);
    HoldsSlice(s, pos + 4, Utf8(t));
    assert BytesAt(s, pos + 4, n) == Step(Ok(Utf8(t)), pos + 4 + n);
    Utf8RoundTrip(t);
  }

  /** One user entry with an ASCII name, id then name, followed by the bytes `rest`. */
  lemma EntryRoundTrip(s: seq<Byte>, pos: nat, e: (Byte, Text), rest: seq<Byte>)
    requires Sized(e.1) && IsAscii(e.1) && Holds(s, pos, [e.0] + StrAsWritten(e.1) + rest)
    ensures EntryAt(s, pos) == Step(Ok(e), pos + 1 + |StrAsWritten(e.1)|)
    ensures Holds(s, pos + 1 + |StrAsWritten(e.1)|, rest)
  {
    AsciiStrUnchanged(e.1);
    HoldsSplit(s, pos, [e.0] + Str(e.1), rest);
    HoldsSplit(s, pos, [e.0], Str(e.1));
    assert s[pos + 0] == [e.0][0];
    StringRoundTrip(s, pos + 1, e.1);
  }

  lemma {:induction false} PlayersRoundTrip(s: seq<Byte>, pos: nat, ps: seq<(Byte, Text)>)
    requires SizedPlayers(ps) && AsciiPlayers(ps) && Holds(s, pos, Players(ps))
    ensures PlayersAt(s, pos, |ps|) == Step(Ok(ps), pos + |Players(ps)|)
    decreases |ps|
  {
    if ps != [] {
      var q := pos + 1 + |StrAsWritten(ps[0].1)|;
      assert IsAscii(ps[0].1);
      assert AsciiPlayers(ps[1..]) by {
        forall i | 0 <= i < |ps[1..]|
          ensures IsAscii(ps[1..][i].1)
        {
          assert ps[1..][i] == ps[i + 1];
        }
      }
      PlayersCons(ps);
      EntryRoundTrip(s, pos, ps[0], Players(ps[1..]));
      PlayersRoundTrip(s, q, ps[1..]);
      PlayersStep(s, pos, ps, q, pos + |Players(ps)|);
    }
  }

  /** Reading one more user entry in front of a list. */
  lemma PlayersStep(s: seq<Byte>, pos: nat, ps: seq<(Byte, Text)>, q: nat, end: nat)
    requires pos <= |s| && ps != []
    requires EntryAt(s, pos) == Step(Ok(ps[0]), q)
    requires PlayersAt(s, q, |ps| - 1) == Step(Ok(ps[1..]), end)
    ensures PlayersAt(s, pos, |ps|) == Step(Ok(ps), end)
  {
    assert [ps[0]] + ps[1..] == ps;
  }

  lemma PlayersCons(ps: seq<(Byte, Text)>)
    requires SizedPlayers(ps) && ps != []
    ensures Sized(ps[0].1) && SizedPlayers(ps[1..])
    ensures Players(ps) == [ps[0].0] + StrAsWritten(ps[0].1) + Players(ps[1..])
    ensures |Players(ps)| == 1 + |StrAsWritten(ps[0].1)| + |Players(ps[1..])|
  {
  }

  lemma {:induction false} ScoresRoundTrip(s: seq<Byte>, pos: nat, sc: seq<(Byte, I32)>)
    requires Holds(s, pos, Scores(sc))
    ensures ScoresAt(s, pos, |sc|) == Step(Ok(sc), pos + |Scores(sc)|)
    decreases |sc|
  {
    if sc != [] {
      assert Scores(sc) == [sc[0].0] + Le32(sc[0].1) + Scores(sc[1..]);
      HoldsSplit(s, pos, [sc[0].0] + Le32(sc[0].1), Scores(sc[1..]));
      HoldsSplit(s, pos, [sc[0].0], Le32(sc[0].1));
      I32RoundTrip(s, pos + 1, sc[0].1);
      ScoresRoundTrip(s, pos + 5, sc[1..]);
      ScoresStep(s, pos, sc, pos + |Scores(sc)|);
    }
  }

  /** Reading one more score entry in front of a list. */
  lemma ScoresStep(s: seq<Byte>, pos: nat, sc: seq<(Byte, I32)>, end: nat)
    requires pos < |s| && sc != []
    requires s[pos] == sc[0].0
    requires I32At(s, pos + 1) == Step(Ok(sc[0].1), pos + 5)
    requires ScoresAt(s, pos + 5, |sc| - 1) == Step(Ok(sc[1..]), end)
    ensures ScoresAt(s, pos, |sc|) == Step(Ok(sc), end)
  {
    assert [(sc[0].0, sc[0].1)] + sc[1..] == sc;
  }

  /** The counts of InitialiseGame and GameEnd are single bytes, so a round trip needs fewer than 256 entries. */
  predicate Counted(m: Message)
  {
    (m.InitialiseGame? ==> |m.players| < 0x100) && (m.GameEnd? ==> |m.scores| < 0x100)
  }

  /** What the reader makes of a written message: a successful connection response loses any error it carried. */
  function Received(m: Message): (r: Message)
    ensures OpCodeOf(r) == OpCodeOf(m)
    ensures !m.ConnectionResponse? ==> r == m
    ensures m.ConnectionResponse? && (m.success <==> m.error.None?) ==> r == m
  {
    if m.ConnectionResponse? && m.success then ConnectionResponse(true, None) else m
  }

  lemma InitialiseGameRoundTrip(s: seq<Byte>, pos: nat, a: I32, b: I32, c: I32, ps: seq<(Byte, Text)>)
    requires SizedPlayers(ps) && AsciiPlayers(ps) && |ps| < 0x100
    requires Holds(s, pos, Le32(a) + Le32(b) + Le32(c) + [|ps|] + Players(ps))
    ensures InitialiseGameAt(s, pos) == Step(Ok(InitialiseGame(a, b, c, ps)), pos + 13 + |Players(ps)|)
  {
    HoldsSplit(s, pos, Le32(a) + Le32(b) + Le32(c) + [|ps|], Players(ps));
    GameSettingsRoundTrip(s, pos, a, b, c, |ps|);
    PlayersRoundTrip(s, pos + 13, ps);
    InitialiseGameStep(s, pos, a, b, c, ps, pos + 13 + |Players(ps)|);
  }

  /** The three settings and the user count at the head of InitialiseGame. */
  lemma GameSettingsRoundTrip(s: seq<Byte>, pos: nat, a: I32, b: I32, c: I32, n: Byte)
    requires Holds(s, pos, Le32(a) + Le32(b) + Le32(c) + [n])
    ensures I32At(s, pos) == Step(Ok(a), pos + 4)
    ensures I32At(s, pos + 4) == Step(Ok(b), pos + 8)
    ensures I32At(s, pos + 8) == Step(Ok(c), pos + 12)
    ensures ByteAt(s, pos + 12) == Step(Ok(n), pos + 13)
  {
    HoldsSplit(s, pos, Le32(a) + Le32(b) + Le32(c), [n]);
    HoldsSplit(s, pos, Le32(a) + Le32(b), Le32(c));
    HoldsSplit(s, pos, Le32(a), Le32(b));
    I32RoundTrip(s, pos, a);
    I32RoundTrip(s, pos + 4, b);
    I32RoundTrip(s, pos + 8, c);
    assert s[pos + 12 + 0] == [n][0];
  }

  /** Reading InitialiseGame once its fields are known to read back. */
  lemma InitialiseGameStep(s: seq<Byte>, pos: nat, a: I32, b: I32, c: I32, ps: seq<(Byte, Text)>, end: nat)
    requires pos + 13 <= |s| && |ps| < 0x100
    requires I32At(s, pos) == Step(Ok(a), pos + 4)
    requires I32At(s, pos + 4) == Step(Ok(b), pos + 8)
    requires I32At(s, pos + 8) == Step(Ok(c), pos + 12)
    requires ByteAt(s, pos + 12) == Step(Ok(|ps| as Byte), pos + 13)
    requires PlayersAt(s, pos + 13, |ps|) == Step(Ok(ps), end)
    ensures InitialiseGameAt(s, pos) == Step(Ok(InitialiseGame(a, b, c, ps)), end)
  {
  }

  lemma GameEndRoundTrip(s: seq<Byte>, pos: nat, sc: seq<(Byte, I32)>)
    requires |sc| < 0x100 && Holds(s, pos, [|sc|] + Scores(sc))
    ensures GameEndAt(s, pos) == Step(Ok(GameEnd(sc)), pos + 1 + |Scores(sc)|)
  {
    HoldsSplit(s, pos, [|sc|], Scores(sc));
    assert s[pos + 0] == [|sc|][0];
    ScoresRoundTrip(s, pos + 1, sc);
  }

  predicate OneByteField(m: Message)
  {
    m.AssignId? || m.Disconnection? || m.StartTurn? || m.DrawResult? || m.DiscardResult?
    || m.PeekResult? || m.Scramble? || m.DisplayScramble?
  }

  /** The packets of fixed-width fields read back. */
  lemma SmallBodyRoundTrip(s: seq<Byte>, pos: nat, m: Message)
    requires Writable(m) && !m.Connect? && !m.InitialiseGame? && !m.GameEnd?
    requires Holds(s, pos, Fields(m))
    ensures BodyAt(OpCodeOf(m), s, pos) == Step(Ok(Received(m)), pos + |Fields(m)|)
  {
    if OneByteField(m) {
      assert s[pos + 0] == Fields(m)[0];
      assert BodyAt(OpCodeOf(m), s, pos) == ByteMessageAt(OpCodeOf(m), s, pos);
    } else if m.Swap? || m.DisplaySwap? || m.Peek? || m.DisplayPeek? {
      IdBodyRoundTrip(s, pos, m);
    } else if m.QuickPlace? || m.QuickPlaceResult? || m.ConnectionResponse? {
      MixedBodyRoundTrip(s, pos, m);
    } else {
      assert OpCodeOnly(m);
    }
  }

  /** The packets carrying card ids. */
  lemma IdBodyRoundTrip(s: seq<Byte>, pos: nat, m: Message)
    requires m.Swap? || m.DisplaySwap? || m.Peek? || m.DisplayPeek?
    requires Holds(s, pos, Fields(m))
    ensures BodyAt(OpCodeOf(m), s, pos) == Step(Ok(m), pos + |Fields(m)|)
  {
    if m.Swap? || m.DisplaySwap? {
      HoldsSplit(s, pos, Le16(m.cardId1), Le16(m.cardId2));
      U16RoundTrip(s, pos, m.cardId1);
      U16RoundTrip(s, pos + 2, m.cardId2);
      assert BodyAt(OpCodeOf(m), s, pos) == TwoIdMessageAt(OpCodeOf(m), s, pos);
    } else {
      U16RoundTrip(s, pos, m.cardId);
      assert BodyAt(OpCodeOf(m), s, pos) == IdMessageAt(OpCodeOf(m), s, pos);
    }
  }

  /** QuickPlace, QuickPlaceResult and ConnectionResponse. */
  lemma MixedBodyRoundTrip(s: seq<Byte>, pos: nat, m: Message)
    requires Writable(m) && (m.QuickPlace? || m.QuickPlaceResult? || m.ConnectionResponse?)
    requires Holds(s, pos, Fields(m))
    ensures BodyAt(OpCodeOf(m), s, pos) == Step(Ok(Received(m)), pos + |Fields(m)|)
  {
    var w := Fields(m);
    if m.QuickPlace? {
      HoldsSplit(s, pos, Le16(m.cardId), [m.seenDiscard]);
      U16RoundTrip(s, pos, m.cardId);
      assert s[pos + 2 + 0] == [m.seenDiscard][0];
      assert BodyAt(5, s, pos) == QuickPlaceAt(s, pos);
    } else if m.QuickPlaceResult? {
      HoldsIndex(s, pos, w, 2);
      assert s[pos + 0] == w[0] && s[pos + 1] == w[1] && s[pos + 2] == w[2];
      assert BodyAt(6, s, pos) == QuickPlaceResultAt(s, pos);
    } else {
      assert s[pos + 0] == w[0];
      if !m.success {
        assert s[pos + 1] == w[1];
      }
      assert BodyAt(2, s, pos) == ConnectionResponseAt(s, pos);
    }
  }

  lemma ConnectBodyRoundTrip(s: seq<Byte>, pos: nat, name: Text)
    requires Sized(name) && IsAscii(name) && Holds(s, pos, Fields(Connect(name)))
    ensures BodyAt(1, s, pos) == Step(Ok(Connect(name)), pos + |Fields(Connect(name))|)
  {
    AsciiStrUnchanged(name);
    assert Fields(Connect(name)) == Str(name);
    StringRoundTrip(s, pos, name);
    assert BodyAt(1, s, pos) == ConnectAt(s, pos);
  }

  lemma InitialiseGameBodyRoundTrip(s: seq<Byte>, pos: nat, m: Message)
    requires m.InitialiseGame? && Writable(m) && Counted(m) && AsciiNames(m) && Holds(s, pos, Fields(m))
    ensures BodyAt(3, s, pos) == Step(Ok(m), pos + |Fields(m)|)
  {
    InitialiseGameFieldsLayout(m);
    InitialiseGameRoundTrip(s, pos, m.startingCards, m.deckSize, m.turnTimeLimit, m.players);
    assert BodyAt(3, s, pos) == InitialiseGameAt(s, pos);
  }

  lemma InitialiseGameFieldsLayout(m: Message)
    requires m.InitialiseGame? && Writable(m) && |m.players| < 0x100
    ensures Fields(m) == Le32(m.startingCards) + Le32(m.deckSize) + Le32(m.turnTimeLimit) + [|m.players|] + Players(m.players)
  {
    assert TruncByte(|m.players|) == |m.players|;
  }

  lemma GameEndBodyRoundTrip(s: seq<Byte>, pos: nat, m: Message)
    requires m.GameEnd? && Counted(m) && Holds(s, pos, Fields(m))
    ensures BodyAt(24, s, pos) == Step(Ok(m), pos + |Fields(m)|)
  {
    GameEndFieldsLayout(m);
    GameEndRoundTrip(s, pos, m.scores);
    assert BodyAt(24, s, pos) == GameEndAt(s, pos);
  }

  lemma GameEndFieldsLayout(m: Message)
    requires m.GameEnd? && |m.scores| < 0x100
    ensures Fields(m) == [|m.scores|] + Scores(m.scores)
  {
    assert TruncByte(|m.scores|) == |m.scores|;
  }

  /**
   * Reading what the writer wrote gives back the message, and consumes
   * exactly its bytes, whatever comes after it in the stream, as long as
   * its names are ASCII (for other names see NonAsciiNameMisread).
   */
  lemma MessageRoundTrip(s: seq<Byte>, pos: nat, m: Message)
    requires Writable(m) && Counted(m) && AsciiNames(m) && Holds(s, pos, Encode(m))
    ensures MessageAt(s, pos) == Step(Ok(Received(m)), pos + |Encode(m)|)
  {
    HoldsSplit(s, pos, [OpCodeOf(m)], Fields(m));
    assert s[pos + 0] == [OpCodeOf(m)][0];
    if m.Connect? || m.InitialiseGame? || m.GameEnd? {
      match m
      case Connect(name) => ConnectBodyRoundTrip(s, pos + 1, name);
      case InitialiseGame(_, _, _, _) => InitialiseGameBodyRoundTrip(s, pos + 1, m);
      case GameEnd(_) => GameEndBodyRoundTrip(s, pos + 1, m);
    } else {
      SmallBodyRoundTrip(s, pos + 1, m);
    }
  }

  /** The same, for a stream holding nothing but the packet. */
  lemma PacketRoundTrip(m: Message)
    requires Writable(m) && Counted(m) && AsciiNames(m)
    ensures MessageAt(Encode(m), 0) == Step(Ok(Received(m)), |Encode(m)|)
  {
    var w := Encode(m);
    HoldsBytes(w, 0, w);
    MessageRoundTrip(w, 0, m);
  }

  /**
   * With the length prefix as written (UTF-16 units), a name with a
   * two-byte UTF-8 character is cut short: "é" reads back as U+FFFD and
   * its second byte is left in the stream, where it is taken for an
   * opcode the reader does not know.
   */
  lemma NonAsciiNameMisread()
    ensures var w := Encode(Connect([0xE9]));
      && w == [1, 1, 0, 0, 0, 0xC3, 0xA9]
      && MessageAt(w, 0) == Step(Ok(Connect([ReplacementChar])), 6)
      && MessageAt(w, 6) == Step(Err(InvalidOperation), 7)
  {
    var t: Text := [0xE9];
    assert Utf8(t) == [0xC3, 0xA9];
    assert Utf16Length(t) == 1;
    ConnectLayout(Connect(t));
    assert Encode(Connect(t)) == [1, 1, 0, 0, 0, 0xC3, 0xA9];
    MisreadBytes();
  }

  /** How the reader takes the bytes of a one-unit prefix followed by a two-byte character. */
  lemma MisreadBytes()
    ensures var w: seq<Byte> := [1, 1, 0, 0, 0, 0xC3, 0xA9];
      && MessageAt(w, 0) == Step(Ok(Connect([ReplacementChar])), 6)
      && MessageAt(w, 6) == Step(Err(InvalidOperation), 7)
  {
    var w: seq<Byte> := [1, 1, 0, 0, 0, 0xC3, 0xA9];
    assert I32At(w, 1) == Step(Ok(1), 5);
    assert DecodeOne([0xC3]) == (ReplacementChar, 1);
    assert Utf8Decode([0xC3]) == [ReplacementChar];
    assert w[5..6] == [0xC3];
  }
}
