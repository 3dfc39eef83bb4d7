/**
 * Turn order, shared by the server's `HostGameManager` and the client's `InputValidator`: the
 * player after a given one, and which players may still act once the game has been called. A
 * call gives every other player one last turn; a player whose last turn has passed is locked.
 * The list operations these are built from are stated with the exceptions C# raises.
 */
module Turns {
  import opened Base

  /** The list indexer `xs[i]`: ArgumentOutOfRangeException outside the list. */
  function At(xs: seq<Byte>, i: int): (r: Result<Byte>)
    ensures r.Ok? <==> 0 <= i < |xs|
    ensures r.Ok? ==> r.value == xs[i]
    ensures r.Err? ==> r.error == ArgumentOutOfRange
  {
    if 0 <= i < |xs| then Ok(xs[i]) else Err(ArgumentOutOfRange)
  }

  /** `List.FindIndex` for an equality test: the first position holding `x`, or -1. */
  function FindIndex(xs: seq<Byte>, x: Byte): (i: int)
    ensures -1 <= i < |xs|
    ensures i >= 0 ==> xs[i] == x && forall j :: 0 <= j < i ==> xs[j] != x
    ensures i == -1 <==> x !in xs
  {
    if xs == [] then -1
    else if xs[0] == x then 0
    else
      var i := FindIndex(xs[1..], x);
      assert forall j :: 1 <= j < |xs| ==> xs[j] == xs[1..][j - 1];
      if i == -1 then -1 else i + 1
  }

  /** `List.Slice(index, count)`: a negative index or count throws
      ArgumentOutOfRangeException, a range past the end ArgumentException. */
  function Slice(xs: seq<Byte>, index: int, count: int): (r: Result<seq<Byte>>)
    ensures index < 0 || count < 0 ==> r == Err(ArgumentOutOfRange)
    ensures 0 <= index && 0 <= count && index + count > |xs| ==> r == Err(Argument)
    ensures 0 <= index && 0 <= count && index + count <= |xs| ==>
      r.Ok? && |r.value| == count && forall j :: 0 <= j < count ==> r.value[j] == xs[index + j]
  {
    if index < 0 || count < 0 then Err(ArgumentOutOfRange)
    else if index + count > |xs| then Err(Argument)
    else Ok(xs[index..index + count])
  }

  /** `ids.Where(id => id != turn)`: the players waiting while `turn` plays, in list order. */
  function Others(ids: seq<Byte>, turn: Byte): (r: seq<Byte>)
    ensures forall x :: x in r <==> x in ids && x != turn
    ensures |r| <= |ids|
  {
    if ids == [] then []
    else (if ids[0] == turn then [] else [ids[0]]) + Others(ids[1..], turn)
  }

  /** The player after `current`: `current + 1` (as a byte) when that is a player, else the
      first player. */
  function Successor(ids: seq<Byte>, current: Byte): (r: Byte)
    requires ids != []
    ensures r in ids
  {
    if TruncByte(current + 1) in ids then TruncByte(current + 1) else ids[0]
  }

  /** `GetNextPlayerId` as the client states it; `First()` on no players throws
      InvalidOperationException. */
  function NextPlayer(ids: seq<Byte>, current: Byte): (r: Result<Byte>)
    ensures r.Err? <==> ids == []
    ensures r.Err? ==> r.error == InvalidOperation
    ensures r.Ok? ==> r.value == Successor(ids, current)
  {
    if TruncByte(current + 1) in ids then Ok(TruncByte(current + 1))
    else if ids == [] then Err(InvalidOperation)
    else Ok(ids[0])
  }

  /** `GetNextPlayerId` as the server states it: it tests whether `current + 1` is a player but
      answers `turn + 1`. */
  function NextPlayerAsWritten(ids: seq<Byte>, turn: Byte, current: Byte): (r: Result<Byte>)
  {
    if TruncByte(current + 1) in ids then Ok(TruncByte(turn + 1))
    else if ids == [] then Err(InvalidOperation)
    else Ok(ids[0])
  }

  /** The server's version agrees with the intended one when it is asked about the turn player,
      as `HandleEndTurn` asks. */
  lemma NextPlayerAsWrittenOnTurn(ids: seq<Byte>, turn: Byte)
    ensures NextPlayerAsWritten(ids, turn, turn) == NextPlayer(ids, turn)
  {
  }

  /** Asked about another player, the server's version answers the player after the turn
      player instead. */
  lemma NextPlayerAsWrittenOffTurn()
    ensures NextPlayerAsWritten([0, 1, 2], 0, 1) == Ok(1)
    ensures NextPlayer([0, 1, 2], 1) == Ok(2)
  {
    assert TruncByte(2) == [0, 1, 2][2];
  }

  /** Around a table of players 0 .. n - 1 the next player is the following id, wrapping to 0. */
  lemma SuccessorOnTable(n: nat, current: Byte)
    requires 0 < n <= 0x100 && current < n
    ensures Successor(Span(0, n), current) == if current + 1 < n then current + 1 else 0
  {
    var ids := Span(0, n);
    if current + 1 < n {
      assert ids[current + 1] == TruncByte(current + 1);
    } else if n == 0x100 {
      assert ids[0] == TruncByte(current + 1);
    } else {
      assert TruncByte(current + 1) == n;
      assert forall i :: 0 <= i < |ids| ==> ids[i] < n;
    }
  }

  /** The player `k` turns after `caller`. */
  function After(ids: seq<Byte>, caller: Byte, k: nat): (r: Byte)
    requires ids != []
  {
    if k == 0 then caller else Successor(ids, After(ids, caller, k - 1))
  }

  /** Around a table of players 0 .. n - 1, `k` turns after `caller` comes `caller + k` modulo n. */
  lemma {:induction false} AfterOnTable(n: nat, caller: Byte, k: nat)
    requires 0 < n <= 0x100 && caller < n && k < n
    ensures After(Span(0, n), caller, k) == if caller + k < n then caller + k else caller + k - n
  {
    if k > 0 {
      AfterOnTable(n, caller, k - 1);
      SuccessorOnTable(n, After(Span(0, n), caller, k - 1));
    }
  }

  /** The order of play from the call: the caller, then each next player, one entry per player
      (the intended `playersInNewOrder`). */
  function CallOrder(ids: seq<Byte>, caller: Byte): (order: seq<Byte>)
    requires ids != []
    ensures |order| == |ids|
    ensures forall k :: 0 <= k < |order| ==> order[k] == After(ids, caller, k)
  {
    seq(|ids|, k requires 0 <= k < |ids| => After(ids, caller, k))
  }

  /** The intended `GetNonLockedPlayers`: before a call, every player; after it, the call order
      from the turn player to its end, that is the players who still have a turn before play
      returns to the caller. A turn player missing from the order leaves nobody. It corrects
      three things in the written code: the order is built from the last entry rather than
      `[-1]`, each step uses the intended next player (`Successor`), and the slice takes the
      `Count - index` entries that are left rather than `Count`. */
  function NonLocked(ids: seq<Byte>, isCalled: bool, caller: Byte, turn: Byte): (r: seq<Byte>)
    ensures forall x :: x in r ==> x in ids || (isCalled && x == caller)
  {
    if !isCalled then ids
    else if ids == [] then []
    else
      var order := CallOrder(ids, caller);
      var i := FindIndex(order, turn);
      assert forall x :: x in order[1..] ==> x in ids;
      if i < 0 then [] else order[i..]
  }

  /** `GetNonLockedPlayers` (server) and `GetNonLockedPlayerIds` (client) as written. After a
      call, the loop that builds the order reads `playersInNewOrder[-1]`, which throws
      ArgumentOutOfRangeException before the `try` as soon as there are two players. With fewer
      the order is just the caller, and a failed slice is caught as the empty list. */
  function NonLockedAsWritten(ids: seq<Byte>, isCalled: bool, caller: Byte, turn: Byte): (r: Result<seq<Byte>>)
  {
    if !isCalled then Ok(ids)
    else if |ids| >= 2 then Err(ArgumentOutOfRange)
    else
      var sliced := Slice([caller], FindIndex([caller], turn), |ids|);
      if sliced.Err? && sliced.error == ArgumentOutOfRange then Ok([]) else sliced
  }

  /** What the written version gives: every player before a call; after it a crash with two or
      more players, and otherwise the caller alone if it is the caller's turn. */
  lemma NonLockedAsWrittenCases(ids: seq<Byte>, isCalled: bool, caller: Byte, turn: Byte)
    ensures var r := NonLockedAsWritten(ids, isCalled, caller, turn);
      && (!isCalled ==> r == Ok(ids))
      && (isCalled && |ids| >= 2 ==> r == Err(ArgumentOutOfRange))
      && (isCalled && |ids| < 2 ==> r == Ok(if |ids| == 1 && turn == caller then [caller] else []))
  {
    if isCalled && |ids| < 2 {
      var i := FindIndex([caller], turn);
      if turn == caller {
        assert i == 0;
        assert [caller][0..|ids|] == if |ids| == 1 then [caller] else [];
      } else {
        assert i == -1;
      }
    }
  }

  /** Where the two versions part: two players, player 0 called and player 1 is to play. The
      written version throws; the intended one leaves player 1 free. */
  lemma NonLockedAsWrittenCrashes()
    ensures NonLockedAsWritten([0, 1], true, 0, 1) == Err(ArgumentOutOfRange)
    ensures NonLocked([0, 1], true, 0, 1) == [1]
  {
    var order := CallOrder([0, 1], 0);
    assert Span(0, 2) == [0, 1];
    AfterOnTable(2, 0, 1);
    assert order == [0, 1];
    assert FindIndex(order, 1) == 1;
  }

  /** The slice as written asks for `Count` entries from the turn player's index. With the
      `[-1]` read fixed, that is past the end as soon as the turn player is not the caller, and
      `GetRange` then throws ArgumentException, which the filter does not catch. The intended
      slice takes the `Count - index` entries that are left, which is `NonLocked`. */
  lemma NonLockedSliceAsWritten(ids: seq<Byte>, caller: Byte, turn: Byte)
    requires ids != []
    ensures var order := CallOrder(ids, caller);
      var i := FindIndex(order, turn);
      && (0 < i ==> Slice(order, i, |ids|) == Err(Argument))
      && (0 <= i ==> Slice(order, i, |ids| - i) == Ok(NonLocked(ids, true, caller, turn)))
  {
    var order := CallOrder(ids, caller);
    var i := FindIndex(order, turn);
    if 0 <= i {
      SliceFrom(order, i);
    }
  }

  /** From index `i`, a slice of the whole length is past the end unless `i` is 0, while the
      `|xs| - i` entries that are left are exactly `xs[i..]`. */
  lemma SliceFrom(xs: seq<Byte>, i: nat)
    requires i <= |xs|
    ensures 0 < i ==> Slice(xs, i, |xs|) == Err(Argument)
    ensures Slice(xs, i, |xs| - i) == Ok(xs[i..])
  {
    assert Slice(xs, i, |xs| - i).value == xs[i..];
  }

  /** Three players, player 0 called and player 1 to play: the written slice throws, the
      intended one leaves players 1 and 2 free. */
  lemma NonLockedSliceCrashes()
    ensures Slice(CallOrder([0, 1, 2], 0), 1, 3) == Err(Argument)
    ensures NonLocked([0, 1, 2], true, 0, 1) == [1, 2]
  {
    var order := CallOrder([0, 1, 2], 0);
    assert Span(0, 3) == [0, 1, 2];
    CallOrderOnTable(3, 0);
    assert order == [0, 1, 2];
    assert FindIndex(order, 1) == 1;
  }

  /** Around a table of players 0 .. n - 1 the call order is `caller`, `caller + 1`, ..
      modulo n. */
  lemma CallOrderOnTable(n: nat, caller: Byte)
    requires 0 < n <= 0x100 && caller < n
    ensures var order := CallOrder(Span(0, n), caller);
      |order| == n && forall k :: 0 <= k < n ==> order[k] == if caller + k < n then caller + k else caller + k - n
  {
    var order := CallOrder(Span(0, n), caller);
    forall k | 0 <= k < n
      ensures order[k] == if caller + k < n then caller + k else caller + k - n
    {
      AfterOnTable(n, caller, k);
    }
  }

  /** Around a table of players 0 .. n - 1, `turn` sits `turn - caller` places into the call
      order, modulo n. */
  lemma TurnIndexOnTable(n: nat, caller: Byte, turn: Byte)
    requires 0 < n <= 0x100 && caller < n && turn < n
    ensures FindIndex(CallOrder(Span(0, n), caller), turn) == if turn >= caller then turn - caller else turn + n - caller
  {
    var order := CallOrder(Span(0, n), caller);
    CallOrderOnTable(n, caller);
    var d := if turn >= caller then turn - caller else turn + n - caller;
    assert order[d] == turn;
    var i := FindIndex(order, turn);
    assert order[i] == turn;
  }

  /** Around a table of players 0 .. n - 1, once `caller` has called: the players still free are
      `turn`, `turn + 1`, .. up to the player before the caller, modulo n. So the turn player
      is always free, and the caller is free only on its own turn. */
  lemma NonLockedOnTable(n: nat, caller: Byte, turn: Byte)
    requires 0 < n <= 0x100 && caller < n && turn < n
    ensures var r := NonLocked(Span(0, n), true, caller, turn);
      && |r| == n - (if turn >= caller then turn - caller else turn + n - caller)
      && (forall j :: 0 <= j < |r| ==> r[j] == if turn + j < n then turn + j else turn + j - n)
      && turn in r
      && (caller in r <==> turn == caller)
  {
    var ids := Span(0, n);
    var order := CallOrder(ids, caller);
    CallOrderOnTable(n, caller);
    var d := if turn >= caller then turn - caller else turn + n - caller;
    TurnIndexOnTable(n, caller, turn);
    var r := order[d..];
    assert NonLocked(ids, true, caller, turn) == r;
    forall j | 0 <= j < |r|
      ensures r[j] == if turn + j < n then turn + j else turn + j - n
    {
      assert r[j] == order[d + j];
    }
    RotationHolds(n, caller, turn, r);
  }

  /** A run of `n - d` seats starting at `turn` and wrapping modulo n, where `turn` is `d` seats
      after `caller`, holds `turn` and reaches `caller` only when the two coincide. */
  lemma RotationHolds(n: nat, caller: Byte, turn: Byte, r: seq<Byte>)
    requires 0 < n <= 0x100 && caller < n && turn < n
    requires |r| == n - (if turn >= caller then turn - caller else turn + n - caller)
    requires forall j :: 0 <= j < |r| ==> r[j] == if turn + j < n then turn + j else turn + j - n
    ensures turn in r
    ensures caller in r <==> turn == caller
  {
    assert r[0] == turn;
    if caller in r {
      var j :| 0 <= j < |r| && r[j] == caller;
      assert j == 0;
    }
  }
}
