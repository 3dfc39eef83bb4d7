/**
 * The card registry of `CardCounter`: an id allocator over `ushort` ids and a map from id to a
 * value that may be absent. Absent values are allowed only for placeholder ids (the held card
 * and the top of the discard pile).
 */
module Cards {
  import opened Base
  import opened CardValues

  type CardId = U16

  class Registry {
    /** `_nextId`: the id the next allocation takes. */
    var nextId: CardId
    /** `_numbers`: every allocated id and its value, absent for an empty placeholder. */
    var numbers: map<CardId, Option<CardValue>>
    /** `_placeholders`: the ids that may hold an absent value, in allocation order. */
    var placeholders: seq<CardId>

    /** Placeholders are registered, and only placeholders may hold an absent value. */
    ghost predicate Valid()
      reads this
    {
      && (forall p :: p in placeholders ==> p in numbers)
      && (forall id :: id in numbers && numbers[id].None? ==> id in placeholders)
    }

    constructor ()
      ensures Valid()
      ensures nextId == 0 && numbers == map[] && placeholders == []
    {
      nextId := 0;
      numbers := map[];
      placeholders := [];
    }

    /** `GetNumber`: the stored value; an id never allocated raises InvalidOperationException. */
    function GetNumber(id: CardId): (r: Result<Option<CardValue>>)
      reads this
      ensures r.Ok? <==> id in numbers
      ensures r.Ok? ==> r.value == numbers[id]
    {
      if id in numbers then Ok(numbers[id]) else Err(InvalidOperation)
    }

    /** `MakeNewCard`: `_numbers.Add(_nextId, value)`, then a card handle over this counter with
        that id, then `_nextId++`. When the counter has wrapped onto an id already present, `Add`
        throws before the counter moves. */
    method MakeNewCard(value: CardValue) returns (r: Result<CounterCard>)
      requires Valid()
      modifies this
      ensures Valid()
      ensures placeholders == old(placeholders)
      ensures old(nextId) in old(numbers) ==> r == Err(Argument) && unchanged(this)
      ensures old(nextId) !in old(numbers) ==>
        && r == Ok(CounterCard(old(nextId), this))
        && r.value.Number() == Ok(Some(value))
        && numbers == old(numbers)[old(nextId) := Some(value)]
        && nextId == NextU16(old(nextId))
    {
      if nextId in numbers {
        return Err(Argument);
      }
      numbers := numbers[nextId := Some(value)];
      r := Ok(CounterCard(nextId, this));
      nextId := NextU16(nextId);
    }

    /** `ChangeNumber`: the indexer store overwrites (or adds) this id only. */
    method ChangeNumber(id: CardId, value: CardValue)
      requires Valid()
      modifies this
      ensures Valid()
      ensures numbers == old(numbers)[id := Some(value)]
      ensures nextId == old(nextId) && placeholders == old(placeholders)
    {
      numbers := numbers[id := Some(value)];
    }

    /** `ChangePlaceholderNumber`: asserts the id is a placeholder, then stores a possibly absent value. */
    method ChangePlaceholderNumber(placeholderId: CardId, value: Option<CardValue>)
      requires Valid()
      requires placeholderId in placeholders
      modifies this
      ensures Valid()
      ensures numbers == old(numbers)[placeholderId := value]
      ensures nextId == old(nextId) && placeholders == old(placeholders)
    {
      numbers := numbers[placeholderId := value];
    }

    /** `AddPlaceholder`: records `_nextId` as a placeholder, adds it with an absent value and
        returns it, advancing the counter. On a wrapped counter the id is recorded as a
        placeholder before `Add` throws. */
    method AddPlaceholder() returns (r: Result<CardId>)
      requires Valid()
      modifies this
      ensures Valid()
      ensures placeholders == old(placeholders) + [old(nextId)]
      ensures old(nextId) in old(numbers) ==>
        r == Err(Argument) && numbers == old(numbers) && nextId == old(nextId)
      ensures old(nextId) !in old(numbers) ==>
        && r == Ok(old(nextId))
        && numbers == old(numbers)[old(nextId) := Option.None]
        && nextId == NextU16(old(nextId))
    {
      placeholders := placeholders + [nextId];
      if nextId in numbers {
        return Err(Argument);
      }
      numbers := numbers[nextId := Option.None];
      r := Ok(nextId);
      nextId := NextU16(nextId);
    }
  }

  /** The nested `CardCounter.Card`: an id bound to the counter that holds its value. */
  datatype CounterCard = CounterCard(id: CardId, counter: Registry) {

    /** `Number` reads the counter's current value for this id. */
    function Number(): Result<Option<CardValue>>
      reads counter
    {
      counter.GetNumber(id)
    }

    /** `ChangeNumber` delegates to the counter. */
    method ChangeNumber(value: CardValue)
      requires counter.Valid()
      modifies counter
      ensures counter.Valid()
      ensures counter.numbers == old(counter.numbers)[id := Some(value)]
      ensures counter.nextId == old(counter.nextId) && counter.placeholders == old(counter.placeholders)
    {
      counter.ChangeNumber(id, value);
    }
  }
}
