/**
 * The card value space (the `CardValue` enum, a byte) and the card action each value unlocks.
 * Values 1..52 are four suits of thirteen ranks in contiguous blocks, 53 and 54 are the
 * jokers and 0 is the card back.
 */
module CardValues {
  import opened Base

  /** A card value; the C# enum is backed by a byte and a cast from the wire admits any byte. */
  type CardValue = Byte

  const Back: CardValue := 0
  const SpadesKing: CardValue := 13
  const HeartsKing: CardValue := 26
  const DiamondsKing: CardValue := 39
  const ClubsKing: CardValue := 52
  const JokerBlack: CardValue := 53
  const JokerColour: CardValue := 54
  /** The largest member of the enum: a standard set has this many cards. */
  const SetSize: nat := 54

  /** A value of a standard set, 1..54. */
  predicate InSet(v: int) { 1 <= v <= SetSize }

  datatype CardAction = None | Draw | PeekSelf | PeekOther | Swap | DiscardSwap | Scramble | QuickPlace

  datatype Suit = Spades | Hearts | Diamonds | Clubs

  /** What the enum member names: the back, a suited rank (1 = ace .. 13 = king) or a joker. */
  datatype Face = BackFace | Suited(suit: Suit, rank: int) | Joker(coloured: bool)

  predicate ValidFace(f: Face)
  {
    f.Suited? ==> 1 <= f.rank <= 13
  }

  function SuitIndex(s: Suit): nat
  {
    match s
    case Spades => 0
    case Hearts => 1
    case Diamonds => 2
    case Clubs => 3
  }

  function SuitAt(i: nat): Suit
    requires i < 4
  {
    if i == 0 then Spades else if i == 1 then Hearts else if i == 2 then Diamonds else Clubs
  }

  /** The enum's numbering of a face. */
  function ValueOf(f: Face): (v: CardValue)
    requires ValidFace(f)
    ensures v <= SetSize
  {
    match f
    case BackFace => 0
    case Suited(s, r) => 13 * SuitIndex(s) + r
    case Joker(c) => if c then JokerColour else JokerBlack
  }

  /** The enum member a value 0..54 names. */
  function FaceOf(v: CardValue): (f: Face)
    requires v <= SetSize
    ensures ValidFace(f)
  {
    if v == 0 then BackFace
    else if v == JokerBlack then Joker(false)
    else if v == JokerColour then Joker(true)
    else Suited(SuitAt((v - 1) / 13), (v - 1) % 13 + 1)
  }

  /** The enum is contiguous: every value 0..54 names exactly one face and back. */
  lemma FaceRoundTrip(v: CardValue)
    requires v <= SetSize
    ensures ValueOf(FaceOf(v)) == v
  {
    if 1 <= v <= 52 {
      var q := (v - 1) / 13;
      assert SuitIndex(SuitAt(q)) == q;
    }
  }

  lemma ValueRoundTrip(f: Face)
    requires ValidFace(f)
    ensures FaceOf(ValueOf(f)) == f
  {
    if f.Suited? {
      var v := ValueOf(f);
      assert (v - 1) / 13 == SuitIndex(f.suit);
      assert (v - 1) % 13 + 1 == f.rank;
      assert SuitAt(SuitIndex(f.suit)) == f.suit;
    }
  }

  /** `Extensions.GetCardAction`: classifies a value by its remainder modulo 13: remainder 0
      scrambles except for 13 and 52, 11 and 12 swap, 9 and 10 peek at another hand, 7 and 8
      peek at one's own, and the rest have no action. */
  function GetCardAction(card: CardValue): (r: CardAction)
    requires card != 0
    ensures r in {CardAction.None, PeekSelf, PeekOther, Swap, Scramble}
  {
    var num := card % 13;
    if num == 0 && card != 13 && card != 52 then Scramble
    else if num > 10 then Swap
    else if num > 8 then PeekOther
    else if num > 6 then PeekSelf
    else CardAction.None
  }

  /** The game's rules stated on faces: red kings scramble, jacks and queens swap, nines and tens
      peek at another hand, sevens and eights peek at one's own; all else has no action. */
  function ActionOfFace(f: Face): CardAction
  {
    match f
    case Suited(s, r) =>
      if r == 13 && (s == Hearts || s == Diamonds) then Scramble
      else if r == 11 || r == 12 then Swap
      else if r == 9 || r == 10 then PeekOther
      else if r == 7 || r == 8 then PeekSelf
      else CardAction.None
    case _ => CardAction.None
  }

  /** On a standard set, the modulus chain agrees with the rules stated on faces. */
  lemma GetCardActionByFace(v: CardValue)
    requires InSet(v)
    ensures GetCardAction(v) == ActionOfFace(FaceOf(v))
  {
    if v <= 52 {
      var q, r := (v - 1) / 13, (v - 1) % 13;
      assert v == 13 * q + r + 1;
      assert v % 13 == (r + 1) % 13;
    }
  }

  /** Within the deck, Scramble is returned exactly for the two red kings. */
  lemma ScrambleIsRedKing(v: CardValue)
    requires v != 0
    ensures InSet(v) ==> (GetCardAction(v) == Scramble <==> v == HeartsKing || v == DiamondsKing)
  {
  }
}
