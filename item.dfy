/** A rentable item: fixed id and kind, mutable name, rates and status. */
module ItemModel {
  import opened Domain

  /** The observable state of an item. */
  datatype ItemData = ItemData(
    id: string,
    kind: ItemKind,
    name: string,
    pricePerDay: real,
    pricePerHour: real,
    status: ItemStatus)

  /** isAvailable, isRented and isBroken, read off an item's state. */
  predicate IsAvailable(d: ItemData) { d.status == ItemStatus.Available }
  predicate IsRented(d: ItemData) { d.status == ItemStatus.Rented }
  predicate IsBroken(d: ItemData) { d.status == ItemStatus.Broken }

  /** At any time an item is in exactly one of its three states. */
  lemma ExactlyOneStatus(d: ItemData)
    ensures IsAvailable(d) || IsRented(d) || IsBroken(d)
    ensures !(IsAvailable(d) && IsRented(d)) && !(IsAvailable(d) && IsBroken(d)) && !(IsRented(d) && IsBroken(d))
  {
  }

  class Item {
    /** The id has no setter, and the subclass (kind) is fixed at construction. */
    const id: string
    const kind: ItemKind
    var name: string
    var pricePerDay: real
    var pricePerHour: real
    var status: ItemStatus

    function Data(): ItemData
      reads this
    {
      ItemData(id, kind, name, pricePerDay, pricePerHour, status)
    }

    /** A new item stores the daily rate, then the hourly rate, and starts out available. */
    constructor (id: string, kind: ItemKind, name: string, pricePerDay: real, pricePerHour: real)
      ensures Data() == ItemData(id, kind, name, pricePerDay, pricePerHour, ItemStatus.Available)
    {
      this.id := id;
      this.kind := kind;
      this.name := name;
      this.pricePerDay := pricePerDay;
      this.pricePerHour := pricePerHour;
      this.status := ItemStatus.Available;
    }

    method SetStatus(s: ItemStatus)
      modifies this`status
      ensures Data() == old(Data()).(status := s)
    {
      status := s;
    }

    method SetName(n: string)
      modifies this`name
      ensures Data() == old(Data()).(name := n)
    {
      name := n;
    }

    method SetPricePerDay(p: real)
      modifies this`pricePerDay
      ensures Data() == old(Data()).(pricePerDay := p)
    {
      pricePerDay := p;
    }

    method SetPricePerHour(p: real)
      modifies this`pricePerHour
      ensures Data() == old(Data()).(pricePerHour := p)
    {
      pricePerHour := p;
    }
  }
}
