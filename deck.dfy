/**
 * The two decks: `Deck`, a stack of card values filled with whole standard sets and shuffled,
 * and `BlankDeck`, which only counts and always yields the card back.
 */
module Decks {
  import opened Base
  import opened CardValues

  /** One standard set in enum order: the values 1..54. */
  function OneSet(): seq<CardValue>
  {
    Span(1, SetSize + 1)
  }

  /** The contents of `amount` standard sets, as a multiset. */
  function Sets(amount: nat): multiset<CardValue>
  {
    if amount == 0 then multiset{} else Sets(amount - 1) + multiset(OneSet())
  }

  /** A sequence without repeats holds each of its elements once. */
  lemma {:induction false} DistinctCount(s: seq<CardValue>, v: CardValue)
    requires forall i, j :: 0 <= i < j < |s| ==> s[i] != s[j]
    ensures multiset(s)[v] == if v in s then 1 else 0
  {
    if s != [] {
      var t := s[1..];
      assert s == [s[0]] + t;
      DistinctCount(t, v);
      if v == s[0] {
        assert v !in t by {
          forall k | 0 <= k < |t| ensures t[k] != v {
            assert t[k] == s[k + 1];
          }
        }
      }
    }
  }

  /** A standard set holds every value 1..54 once and never the back. */
  lemma OneSetCount(v: CardValue)
    ensures multiset(OneSet())[v] == if InSet(v) then 1 else 0
  {
    DistinctCount(OneSet(), v);
    if InSet(v) {
      assert OneSet()[v - 1] == v;
    }
  }

  /** `amount` sets hold every value 1..54 exactly `amount` times, the back never, and
      54 * amount values in all. */
  lemma {:induction false} SetsCount(amount: nat, v: CardValue)
    ensures Sets(amount)[v] == if InSet(v) then amount else 0
    ensures |Sets(amount)| == SetSize * amount
  {
    if amount > 0 {
      SetsCount(amount - 1, v);
      OneSetCount(v);
    }
  }

  /** A single set, in any order, is 54 distinct values of 1..54. */
  lemma SingleSetDistinct(s: seq<CardValue>)
    requires multiset(s) == Sets(1)
    ensures |s| == SetSize
    ensures forall i :: 0 <= i < |s| ==> InSet(s[i])
    ensures forall i, j :: 0 <= i < j < |s| ==> s[i] != s[j]
  {
    SetsCount(1, 0);
    forall i | 0 <= i < |s| ensures InSet(s[i]) {
      assert s[i] in multiset(s);
      SetsCount(1, s[i]);
    }
    forall i, j | 0 <= i < j < |s| ensures s[i] != s[j] {
      if s[i] == s[j] {
        var x := s[i];
        assert s == s[..j] + s[j..];
        assert x in s[..j] && x in s[j..] by {
          assert s[..j][i] == x;
          assert s[j..][0] == x;
        }
        assert multiset(s)[x] == multiset(s[..j])[x] + multiset(s[j..])[x];
        SetsCount(1, x);
        assert false;
      }
    }
  }

  /** The inner loop of the constructor: pushes the enum values 1..54 in order. */
  method PushOneSet(stack: seq<CardValue>) returns (r: seq<CardValue>)
    ensures r == stack + OneSet()
  {
    r := stack;
    var j := 1;
    while j <= SetSize
      invariant 1 <= j <= SetSize + 1
      invariant r == stack + OneSet()[..j - 1]
    {
      assert OneSet()[..j] == OneSet()[..j - 1] + [j as CardValue];
      r := r + [j];
      j := j + 1;
    }
    assert OneSet()[..SetSize] == OneSet();
  }

  /** `Deck`: a stack of values whose top is the last element of `cards`. */
  class Deck {
    var cards: seq<CardValue>
    const standardSizeMultiple: int

    /** `Remaining`: the number of values left on the stack. */
    function Remaining(): nat
      reads this
    {
      |cards|
    }

    /** `new Deck(amount)`: for each of `amount` rounds, pushes the values 1..54 and then
        reorders the whole stack at random (any permutation may result). */
    constructor (amount: int)
      requires amount > 0
      ensures standardSizeMultiple == amount
      ensures multiset(cards) == Sets(amount)
      ensures Remaining() == SetSize * amount
    {
      var stack: seq<CardValue> := [];
      var i := 0;
      while i < amount
        invariant 0 <= i <= amount
        invariant multiset(stack) == Sets(i)
      {
        stack := PushOneSet(stack);
        var shuffled: seq<CardValue> :| multiset(shuffled) == multiset(stack);
        stack := shuffled;
        i := i + 1;
      }
      SetsCount(amount, 0);
      standardSizeMultiple := amount;
      cards := stack;
    }

    /** `Draw`: `Stack.Pop`, which returns the top value, or throws InvalidOperationException on an
        empty stack and leaves it empty. */
    method Draw() returns (r: Result<CardValue>)
      modifies this
      ensures old(cards) == [] ==> r == Err(InvalidOperation) && cards == []
      ensures old(cards) != [] ==>
        && r == Ok(old(cards)[|old(cards)| - 1])
        && cards == old(cards)[..|old(cards)| - 1]
      ensures Remaining() == if old(cards) == [] then 0 else old(Remaining()) - 1
    {
      if cards == [] {
        return Err(InvalidOperation);
      }
      r := Ok(cards[|cards| - 1]);
      cards := cards[..|cards| - 1];
    }
  }

  /** `BlankDeck`: a deck that only counts, for hands whose values must stay hidden. */
  class BlankDeck {
    const standardSizeMultiple: I32
    var remaining: I32

    /** The count never goes negative once it starts non-negative. */
    ghost predicate Valid()
      reads this
    {
      remaining >= 0
    }

    /** `new BlankDeck(amount)`: `Remaining = amount * 54` in unchecked 32-bit arithmetic. The
        amount is not checked, so a negative amount gives a negative count. */
    constructor (amount: I32)
      ensures standardSizeMultiple == amount
      ensures remaining == WrapI32(amount * SetSize)
      ensures 0 <= amount <= 0x7FFF_FFFF / SetSize ==> remaining == amount * SetSize && Valid()
    {
      standardSizeMultiple := amount;
      remaining := WrapI32(amount * SetSize);
    }

    /** `Draw`: throws InvalidOperationException at 0 and leaves the count there; otherwise counts
        down by one and yields the back. */
    method Draw() returns (r: Result<CardValue>)
      modifies this
      ensures old(remaining) == 0 ==> r == Err(InvalidOperation) && remaining == 0
      ensures old(remaining) != 0 ==> r == Ok(Back) && remaining == WrapI32(old(remaining) - 1)
      ensures old(Valid()) ==> Valid() && remaining == if old(remaining) == 0 then 0 else old(remaining) - 1
    {
      if remaining == 0 {
        return Err(InvalidOperation);
      }
      remaining := WrapI32(remaining - 1);
      r := Ok(Back);
    }
  }
}
