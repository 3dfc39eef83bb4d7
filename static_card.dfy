/**
 * The static `Card` struct: the same registry as `CardCounter`, kept in static fields shared by
 * the whole process. Here that state is one `Registry` object passed to every operation; each
 * operation's contract is stated on the same registry state as the instance operations of
 * `CardCounter`, and only the constructor and `Reset` differ from them.
 */
module StaticCard {
  import opened Base
  import opened CardValues
  import opened Cards

  /** The struct holds only its id; `default(Card)` is `Card(0)`. */
  datatype Card = Card(id: CardId) {

    /** The instance `Number` property: the registry's value for this id, or an exception. */
    function Number(reg: Registry): (r: Result<Option<CardValue>>)
      reads reg
      ensures r.Ok? <==> id in reg.numbers
      ensures r.Ok? ==> r.value == reg.numbers[id]
    {
      reg.GetNumber(id)
    }

    /** The instance `ChangeNumber`: stores the value under this card's id only. */
    method ChangeNumber(reg: Registry, value: CardValue)
      requires reg.Valid()
      modifies reg
      ensures reg.Valid()
      ensures reg.numbers == old(reg.numbers)[id := Some(value)]
      ensures reg.nextId == old(reg.nextId) && reg.placeholders == old(reg.placeholders)
    {
      reg.ChangeNumber(id, value);
    }
  }

  /** `new Card(value)`: `Id = _nextId++` and then `_numbers.Add(Id, value)`. The counter moves
      even when `Add` throws on an id the wrapped counter has already used. */
  method NewCard(reg: Registry, value: CardValue) returns (r: Result<Card>)
    requires reg.Valid()
    modifies reg
    ensures reg.Valid()
    ensures reg.nextId == NextU16(old(reg.nextId))
    ensures reg.placeholders == old(reg.placeholders)
    ensures old(reg.nextId) in old(reg.numbers) ==> r == Err(Argument) && reg.numbers == old(reg.numbers)
    ensures old(reg.nextId) !in old(reg.numbers) ==>
      && r == Ok(Card(old(reg.nextId)))
      && reg.numbers == old(reg.numbers)[old(reg.nextId) := Some(value)]
  {
    var id := reg.nextId;
    reg.nextId := NextU16(reg.nextId);
    if id in reg.numbers {
      return Err(Argument);
    }
    reg.numbers := reg.numbers[id := Some(value)];
    r := Ok(Card(id));
  }

  /** `Card.AddPlaceholder`: the same steps as the instance operation. */
  method AddPlaceholder(reg: Registry) returns (r: Result<CardId>)
    requires reg.Valid()
    modifies reg
    ensures reg.Valid()
    ensures reg.placeholders == old(reg.placeholders) + [old(reg.nextId)]
    ensures old(reg.nextId) in old(reg.numbers) ==> r == Err(Argument) && reg.numbers == old(reg.numbers)
    ensures old(reg.nextId) !in old(reg.numbers) ==>
      && r == Ok(old(reg.nextId))
      && reg.numbers == old(reg.numbers)[old(reg.nextId) := Option.None]
      && reg.nextId == NextU16(old(reg.nextId))
  {
    r := reg.AddPlaceholder();
  }

  /** `Card.ChangePlaceholderNumber`: asserts placeholder membership, then stores the value. */
  method ChangePlaceholderNumber(reg: Registry, placeholderId: CardId, value: Option<CardValue>)
    requires reg.Valid()
    requires placeholderId in reg.placeholders
    modifies reg
    ensures reg.Valid()
    ensures reg.numbers == old(reg.numbers)[placeholderId := value]
    ensures reg.nextId == old(reg.nextId) && reg.placeholders == old(reg.placeholders)
  {
    reg.ChangePlaceholderNumber(placeholderId, value);
  }

  /** The static `Card.GetNumber`: the stored value, or InvalidOperationException for an id never allocated. */
  function GetNumber(reg: Registry, cardId: CardId): (r: Result<Option<CardValue>>)
    reads reg
    ensures r.Ok? <==> cardId in reg.numbers
    ensures r.Ok? ==> r.value == reg.numbers[cardId]
  {
    reg.GetNumber(cardId)
  }

  /** `Card.Reset`: ids restart at 0 and both the placeholder list and the value map are emptied. */
  method Reset(reg: Registry)
    modifies reg
    ensures reg.Valid()
    ensures reg.nextId == 0 && reg.placeholders == [] && reg.numbers == map[]
  {
    reg.nextId := 0;
    reg.placeholders := [];
    reg.numbers := map[];
  }

  /** Two allocations in a row, with no wrap-around, take consecutive ids: ids are distinct and
      strictly increasing. */
  method AllocateTwo(reg: Registry, v1: CardValue, v2: CardValue) returns (c1: Result<Card>, c2: Result<Card>)
    requires reg.Valid()
    requires reg.nextId < 0xFFFF
    requires reg.nextId !in reg.numbers && reg.nextId + 1 !in reg.numbers
    modifies reg
    ensures c1.Ok? && c2.Ok?
    ensures c2.value.id == c1.value.id + 1
    ensures c1.value.Number(reg) == Ok(Some(v1)) && c2.value.Number(reg) == Ok(Some(v2))
  {
    c1 := NewCard(reg, v1);
    c2 := NewCard(reg, v2);
  }
}
