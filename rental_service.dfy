/**
 * RentalService: creates and completes rentals over the shared inventory and member registry.
 * A ghost Ledger.Club records the state the objects are in, and every operation is proved to
 * move it by the ledger's transition functions, so the ledger lemmas apply to the objects.
 */
module RentalServiceModel {
  import opened Wrappers
  import opened Domain
  import opened Text
  import opened ItemModel
  import opened MemberModel
  import opened RentalModel
  import opened Pricing
  import opened InventoryModel
  import opened RegistryModel
  import opened Ledger

  /** The rental objects are, position by position, in the states `ds` records. */
  ghost predicate ListMirrors(rs: seq<Rental>, ds: seq<RentalData>)
    reads rs
  {
    |rs| == |ds| && forall i :: 0 <= i < |rs| ==> rs[i].Data() == ds[i]
  }

  /** The rentals whose status is ACTIVE, in list order. */
  function ActiveRentals(rs: seq<Rental>): (r: seq<Rental>)
    reads rs
    ensures |r| <= |rs|
    ensures forall i :: 0 <= i < |r| ==> r[i] in rs && IsActive(r[i].Data())
    ensures forall i :: 0 <= i < |rs| && IsActive(rs[i].Data()) ==> rs[i] in r
  {
    if |rs| == 0 then []
    else ActiveRentals(rs[..|rs| - 1]) + (if IsActive(rs[|rs| - 1].Data()) then [rs[|rs| - 1]] else [])
  }

  class RentalService {
    const inventory: Inventory
    const memberRegistry: MemberRegistry
    /** The price policy for STUDENT members, which the source obtains from a factory not shown. */
    const studentPricing: PriceFn
    var rentals: seq<Rental>
    var rentalCounter: nat
    /** The ledger the objects currently spell out. */
    ghost var club: Club

    /** The objects are in the states `club` records, and each rental object is listed once. */
    ghost predicate Coupled()
      reads this, inventory, inventory.items.Values, memberRegistry, memberRegistry.members.Values, rentals
    {
      StockCoupled() && MembersCoupled() && RentalsCoupled()
    }

    /** The items are in the states `club.stock` records. */
    ghost predicate StockCoupled()
      reads this, inventory, inventory.items.Values
    {
      StockMirrored(club.stock)
    }

    /** The items are in the states `stock` records. */
    ghost predicate StockMirrored(stock: map<string, ItemData>)
      reads inventory, inventory.items.Values
    {
      inventory.Valid() && inventory.Mirrors(stock)
    }

    /** The members are in the states `club.members` records. */
    ghost predicate MembersCoupled()
      reads this, memberRegistry, memberRegistry.members.Values
    {
      MembersMirrored(club.members)
    }

    /** The members are in the states `directory` records. */
    ghost predicate MembersMirrored(directory: map<Int32, MemberData>)
      reads memberRegistry, memberRegistry.members.Values
    {
      memberRegistry.Valid() && memberRegistry.Mirrors(directory)
    }

    /** The listed rentals are in the states `club.rentals` records, each listed once, and the counter is the ledger's. */
    ghost predicate RentalsCoupled()
      reads this, rentals
    {
      RentalsMirrored(club.rentals, club.counter)
    }

    /** The listed rentals are in the states `ds` records, each listed once, and the counter is `counter`. */
    ghost predicate RentalsMirrored(ds: seq<RentalData>, counter: nat)
      reads this`rentals, this`rentalCounter, rentals
    {
      ListMirrors(rentals, ds)
      && (forall i, j :: 0 <= i < j < |rentals| ==> rentals[i] != rentals[j])
      && rentalCounter == counter
    }

    /** A write to the members alone keeps the stock and the rentals mirrored. */
    twostate lemma MembersWritten(c: Club)
      requires old(StockMirrored(c.stock) && RentalsMirrored(c.rentals, c.counter))
      requires unchanged(inventory) && unchanged(inventory.items.Values)
      requires unchanged(this`rentals, this`rentalCounter) && unchanged(rentals)
      ensures StockMirrored(c.stock) && RentalsMirrored(c.rentals, c.counter)
    {
    }

    /** A write to the items alone keeps the members and the rentals mirrored. */
    twostate lemma StockWritten(c: Club)
      requires old(MembersMirrored(c.members) && RentalsMirrored(c.rentals, c.counter))
      requires unchanged(memberRegistry) && unchanged(memberRegistry.members.Values)
      requires unchanged(this`rentals, this`rentalCounter) && unchanged(rentals)
      ensures MembersMirrored(c.members) && RentalsMirrored(c.rentals, c.counter)
    {
    }

    /** A write to the rentals alone keeps the stock and the members mirrored. */
    twostate lemma RentalsWritten(c: Club)
      requires old(StockMirrored(c.stock) && MembersMirrored(c.members))
      requires unchanged(inventory) && unchanged(inventory.items.Values)
      requires unchanged(memberRegistry) && unchanged(memberRegistry.members.Values)
      ensures StockMirrored(c.stock) && MembersMirrored(c.members)
    {
    }

    /** Coupled, and the rental ids follow the counter. */
    ghost predicate Valid()
      reads this, inventory, inventory.items.Values, memberRegistry, memberRegistry.members.Values, rentals
    {
      Coupled() && WellNumbered(club)
    }

    /** A new service has no rentals and starts numbering at 1. */
    constructor (inventory: Inventory, memberRegistry: MemberRegistry, studentPricing: PriceFn)
      requires inventory.Valid() && memberRegistry.Valid()
      ensures Valid()
      ensures this.inventory == inventory && this.memberRegistry == memberRegistry
      ensures this.studentPricing == studentPricing
      ensures rentals == [] && club == Club(inventory.Stock(), memberRegistry.Directory(), [], 1)
    {
      this.inventory := inventory;
      this.memberRegistry := memberRegistry;
      this.studentPricing := studentPricing;
      this.rentals := [];
      this.rentalCounter := 1;
      this.club := Club(inventory.Stock(), memberRegistry.Directory(), [], 1);
      new;
      inventory.MirrorsStock(club.stock);
      memberRegistry.MirrorsDirectory(club.members);
    }

    /**
     * The inventory and the registry are shared objects that other code fills and edits
     * (ClubSystem loads its sample data after building the service; addItem, removeItem and
     * updateMemberLevel change the same stores). Resync re-reads both stores into the ghost
     * ledger, keeping the rentals and the counter, so the service is usable again after any
     * such change that leaves the stores well formed.
     */
    ghost method Resync()
      requires inventory.Valid() && memberRegistry.Valid() && RentalsCoupled() && WellNumbered(club)
      modifies this`club
      ensures Valid()
      ensures club == old(club).(stock := inventory.Stock(), members := memberRegistry.Directory())
    {
      club := club.(stock := inventory.Stock(), members := memberRegistry.Directory());
      inventory.MirrorsStock(club.stock);
      memberRegistry.MirrorsDirectory(club.members);
    }

    /** rentalCounter++: only the counter moves. */
    method BumpCounter()
      requires Coupled()
      modifies this`rentalCounter, this`club
      ensures Coupled() && club == old(club).(counter := old(club.counter) + 1)
    {
      rentalCounter := rentalCounter + 1;
      club := club.(counter := club.counter + 1);
    }

    /** item.setStatus on an item filed in the inventory: only that item's status changes. */
    method MarkItem(it: Item, s: ItemStatus)
      requires Coupled() && it.id in inventory.items && inventory.items[it.id] == it
      modifies it`status, this`club
      ensures Coupled() && club == old(club).(stock := old(club.stock)[it.id := old(club.stock[it.id]).(status := s)])
    {
      ghost var c0 := club;
      inventory.SetStatusOf(it, s, club.stock);
      club := club.(stock := club.stock[it.id := club.stock[it.id].(status := s)]);
      StockWritten(c0);
    }

    /** member.addRental on a registered member: only that member's history grows. */
    method RecordRental(m: Member, rentalId: string)
      requires Coupled() && m.id in memberRegistry.members && memberRegistry.members[m.id] == m
      modifies m`history, this`club
      ensures Coupled()
      ensures club == old(club).(members := old(club.members)[m.id := old(club.members[m.id]).(history := old(club.members[m.id].history) + [rentalId])])
    {
      ghost var c0 := club;
      memberRegistry.AddRentalOf(m, rentalId, club.members);
      club := club.(members := club.members[m.id := club.members[m.id].(history := club.members[m.id].history + [rentalId])]);
      MembersWritten(c0);
    }

    /** rentals.add of a rental object not yet listed. */
    method AppendRental(rental: Rental)
      requires Coupled() && rental !in rentals
      modifies this`rentals, this`club
      ensures Coupled() && rentals == old(rentals) + [rental]
      ensures club == old(club).(rentals := old(club.rentals) + [rental.Data()])
    {
      ghost var c0 := club;
      rentals := rentals + [rental];
      club := club.(rentals := club.rentals + [rental.Data()]);
      RentalsWritten(c0);
    }

    /** rental.complete() on the rental at position k: only that rental changes. */
    method CompleteAt(k: nat, today: int)
      requires Coupled() && k < |rentals|
      modifies rentals[k], this`club
      ensures Coupled()
      ensures club == old(club).(rentals := old(club.rentals)[k := AfterComplete(old(club.rentals[k]), today)])
    {
      ghost var c0 := club;
      rentals[k].Complete(today);
      club := club.(rentals := club.rentals[k := AfterComplete(club.rentals[k], today)]);
      RentalsWritten(c0);
    }

    /** The writes of a granted rental, in the source's order: the item, the member's history, the list. */
    method Commit(it: Item, m: Member, rental: Rental)
      requires Coupled() && rental !in rentals
      requires it.id in inventory.items && inventory.items[it.id] == it
      requires m.id in memberRegistry.members && memberRegistry.members[m.id] == m
      modifies it, m, this`rentals, this`club
      ensures Coupled() && rentals == old(rentals) + [rental] && rental.Data() == old(rental.Data())
      ensures club == old(club).(stock := old(club.stock)[it.id := old(club.stock[it.id]).(status := ItemStatus.Rented)],
                                 members := old(club.members)[m.id := old(club.members[m.id]).(history := old(club.members[m.id].history) + [rental.rentalId])],
                                 rentals := old(club.rentals) + [old(rental.Data())])
    {
      MarkItem(it, ItemStatus.Rented);
      RecordRental(m, rental.rentalId);
      AppendRental(rental);
    }

    /** rentItem once the member and an AVAILABLE item are found: price, number, record. */
    method Grant(m: Member, it: Item, duration: int, period: RentalPeriod, today: int) returns (rental: Rental)
      requires Valid()
      requires m.id in memberRegistry.members && memberRegistry.members[m.id] == m
      requires it.id in inventory.items && inventory.items[it.id] == it && it.status == ItemStatus.Available
      modifies this`rentalCounter, this`rentals, this`club, it, m
      ensures Valid() && fresh(rental) && rentals == old(rentals) + [rental]
      ensures var res := Rent(old(club), studentPricing, m.id, it.id, duration, period, today);
        club == res.club && res.rental == Some(rental.Data())
    {
      ghost var c0 := club;
      assert it.Data() == c0.stock[it.id] && m.Data() == c0.members[m.id];
      var totalCost := PolicyPrice(studentPricing, it.Data(), m.Data(), duration, period);
      var rentalId := RentalIdFor(rentalCounter);
      BumpCounter();
      var expected := ExpectedReturnDate(today, duration, period);
      rental := new Rental(rentalId, m.id, it.id, today, expected, None, totalCost);
      ghost var rd := rental.Data();
      RentGrantedShape(c0, studentPricing, m.id, it.id, duration, period, today, rd);
      NumberedAppend(c0.rentals, c0.counter, rd);
      Commit(it, m, rental);
    }

    /**
     * rentItem: None for an unknown member, an unknown item or an item that is not AVAILABLE;
     * otherwise the new rental.  Either way the ledger moves by Rent.
     */
    method RentItem(memberId: Int32, itemId: string, duration: int, period: RentalPeriod, today: int)
      returns (r: Option<Rental>)
      requires Valid()
      modifies this, inventory.items.Values, memberRegistry.members.Values
      ensures Valid()
      ensures var res := Rent(old(club), studentPricing, memberId, itemId, duration, period, today);
        club == res.club && (r.Some? <==> res.rental.Some?)
        && (r.Some? ==> fresh(r.value) && r.value.Data() == res.rental.value && rentals == old(rentals) + [r.value])
      ensures r.None? ==> rentals == old(rentals)
    {
      var member := memberRegistry.GetMember(memberId);
      if member.None? {
        return None;
      }
      var item := inventory.GetItem(itemId);
      if item.None? {
        return None;
      }
      var it := item.value;
      if it.status != ItemStatus.Available {
        return None;
      }
      var rental := Grant(member.value, it, duration, period, today);
      r := Some(rental);
    }

    /** returnItem once the first rental with the id is found at position k: complete it, free its item. */
    method Settle(k: nat, rentalId: string, today: int)
      requires Valid() && ReturnReady(club, rentalId) && FirstIndex(club.rentals, rentalId) == Some(k)
      modifies rentals[k], inventory.items.Values, this`club
      ensures Valid() && club == Return(old(club), rentalId, today).club
    {
      ghost var c0 := club;
      ReturnFoundShape(c0, rentalId, today, k);
      NumberedReplace(c0.rentals, c0.counter, k, AfterComplete(c0.rentals[k], today));
      var itemId := rentals[k].itemId;
      CompleteAt(k, today);
      var item := inventory.GetItem(itemId).value;
      MarkItem(item, ItemStatus.Available);
    }

    /**
     * returnItem: scans for the first rental with the id; completes it and frees its item
     * whatever its status (true), or reports that there is none (false).
     */
    method ReturnItem(rentalId: string, today: int) returns (ok: bool)
      requires Valid() && ReturnReady(club, rentalId)
      modifies rentals, inventory.items.Values, this`club
      ensures Valid()
      ensures var res := Return(old(club), rentalId, today); club == res.club && ok == res.ok
      ensures rentals == old(rentals)
    {
      var i := 0;
      while i < |rentals| && rentals[i].rentalId != rentalId
        invariant 0 <= i <= |rentals|
        invariant forall j :: 0 <= j < i ==> club.rentals[j].rentalId != rentalId
      {
        i := i + 1;
      }
      if i == |rentals| {
        return false;
      }
      assert FirstIndex(club.rentals, rentalId) == Some(i);
      Settle(i, rentalId, today);
      return true;
    }

    /** The corrected returnItem: refuses a rental that is not ACTIVE, and so keeps the ledger consistent. */
    method ReturnActiveItem(rentalId: string, today: int) returns (ok: bool)
      requires Valid() && ReturnReady(club, rentalId)
      modifies rentals, inventory.items.Values, this`club
      ensures Valid()
      ensures var res := ReturnActive(old(club), rentalId, today); club == res.club && ok == res.ok
      ensures Consistent(old(club)) ==> Consistent(club)
    {
      ghost var c0 := club;
      var found := GetRental(rentalId);
      if found.Some? && found.value.status == RentalStatus.Active {
        ghost var k := FirstIndex(c0.rentals, rentalId).value;
        assert c0.rentals[k] == found.value.Data();
        assert ReturnActive(c0, rentalId, today) == Return(c0, rentalId, today);
        ok := ReturnItem(rentalId, today);
      } else {
        assert ReturnActive(c0, rentalId, today) == ReturnResult(c0, false);
        ok := false;
      }
      if Consistent(c0) {
        GuardedReturnPreservesConsistency(c0, rentalId, today);
      }
    }

    /** getActiveRentals: exactly the ACTIVE rentals, in insertion order. */
    method GetActiveRentals() returns (active: seq<Rental>)
      ensures active == ActiveRentals(rentals)
    {
      active := [];
      var i := 0;
      while i < |rentals|
        invariant 0 <= i <= |rentals|
        invariant active == ActiveRentals(rentals[..i])
      {
        assert rentals[..i + 1][..i] == rentals[..i];
        if rentals[i].status == RentalStatus.Active {
          active := active + [rentals[i]];
        }
        i := i + 1;
      }
      assert rentals[..i] == rentals;
    }

    /** getAllRentals hands out the list itself. */
    function GetAllRentals(): seq<Rental>
      reads this
    {
      rentals
    }

    /** getRental: the first rental with the id, or None when no rental has it. */
    method GetRental(rentalId: string) returns (r: Option<Rental>)
      requires RentalsCoupled()
      ensures match FirstIndex(club.rentals, rentalId)
        case None => r.None?
        case Some(k) => r == Some(rentals[k])
    {
      var i := 0;
      while i < |rentals|
        invariant 0 <= i <= |rentals|
        invariant forall j :: 0 <= j < i ==> club.rentals[j].rentalId != rentalId
      {
        if rentals[i].rentalId == rentalId {
          assert FirstIndex(club.rentals, rentalId) == Some(i);
          return Some(rentals[i]);
        }
        i := i + 1;
      }
      return None;
    }
  }
}
