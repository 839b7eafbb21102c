/**
 * ClubSystem's wiring: the rental service is built over an empty inventory and registry, and the
 * stores are filled afterwards. After a resync of the service's ledger, a rental of a loaded item
 * by a loaded member is granted.
 */
module ClubSystemModel {
  import opened Wrappers
  import opened Domain
  import opened Text
  import opened ItemModel
  import opened MemberModel
  import opened RentalModel
  import opened Pricing
  import opened InventoryModel
  import opened RegistryModel
  import opened Ledger
  import opened RentalServiceModel

  /**
   * The ClubSystem constructor with one item and one member as its sample data: the stores are
   * created empty, the service is built over them, and the stores are filled afterwards.
   */
  method Build(itemId: string, kind: ItemKind, itemName: string, pricePerDay: real, pricePerHour: real,
               memberId: Int32, memberName: string, email: string, phone: string, level: MembershipLevel,
               studentPricing: PriceFn)
    returns (service: RentalService)
    ensures fresh(service) && fresh(service.inventory) && fresh(service.memberRegistry)
    ensures fresh(service.inventory.items.Values) && fresh(service.memberRegistry.members.Values)
    ensures service.Valid() && service.club.rentals == [] && service.club.counter == 1
    ensures service.club.stock.Keys == {itemId}
    ensures service.club.stock[itemId] == ItemData(itemId, kind, itemName, pricePerDay, pricePerHour, ItemStatus.Available)
    ensures service.club.members.Keys == {memberId}
    ensures service.club.members[memberId] == MemberData(memberId, memberName, email, phone, level, [])
  {
    var inventory := new Inventory();
    var memberRegistry := new MemberRegistry();
    service := new RentalService(inventory, memberRegistry, studentPricing);
    LoadSampleData(inventory, memberRegistry, itemId, kind, itemName, pricePerDay, pricePerHour,
                   memberId, memberName, email, phone, level);
    service.Resync();
  }

  /** The sample data: one new item filed in the inventory and one new member in the registry. */
  method LoadSampleData(inventory: Inventory, memberRegistry: MemberRegistry,
                        itemId: string, kind: ItemKind, itemName: string, pricePerDay: real, pricePerHour: real,
                        memberId: Int32, memberName: string, email: string, phone: string, level: MembershipLevel)
    requires inventory.Valid() && inventory.items == map[]
    requires memberRegistry.Valid() && memberRegistry.members == map[]
    modifies inventory, memberRegistry
    ensures inventory.Valid() && memberRegistry.Valid()
    ensures fresh(inventory.items.Values) && fresh(memberRegistry.members.Values)
    ensures inventory.items.Keys == {itemId}
    ensures inventory.items[itemId].Data() == ItemData(itemId, kind, itemName, pricePerDay, pricePerHour, ItemStatus.Available)
    ensures memberRegistry.members.Keys == {memberId}
    ensures memberRegistry.members[memberId].Data() == MemberData(memberId, memberName, email, phone, level, [])
  {
    var item := new Item(itemId, kind, itemName, pricePerDay, pricePerHour);
    inventory.AddItem(item);
    var member := new Member(memberId, memberName, email, phone, level);
    memberRegistry.AddMember(member);
  }

  /** After the stores are loaded, the loaded member's rental of the loaded item is granted. */
  method LoadThenRent(itemId: string, kind: ItemKind, itemName: string, pricePerDay: real, pricePerHour: real,
                      memberId: Int32, memberName: string, email: string, phone: string, level: MembershipLevel,
                      studentPricing: PriceFn, duration: int, period: RentalPeriod, today: int)
    returns (r: Option<Rental>)
    ensures r.Some? && r.value.itemId == itemId && r.value.memberId == memberId
    ensures r.value.status == RentalStatus.Active && r.value.rentalId == RentalIdFor(1)
  {
    var service := Build(itemId, kind, itemName, pricePerDay, pricePerHour, memberId, memberName, email, phone, level, studentPricing);
    RentGranted(service.club, service.studentPricing, memberId, itemId, duration, period, today);
    r := service.RentItem(memberId, itemId, duration, period, today);
  }
}
