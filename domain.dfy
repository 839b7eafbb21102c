/**
 * The enumerations of the club model, one datatype per concept.  The source keeps duplicated
 * copies of these enums in several packages; here each concept is defined once, and the item
 * subclass hierarchy becomes the kind tag `ItemKind`.
 */
module Domain {
  import opened Wrappers

  datatype MembershipLevel = Standard | Student | Premium

  datatype RentalPeriod = Hourly | Daily

  datatype RentalStatus = Active | Completed | Cancelled

  datatype ItemStatus = Available | Rented | Broken

  /** The three abstract item families: camping equipment, fishing equipment and water vehicles. */
  datatype Category = Camping | Fishing | WaterVehicle

  /** The concrete item classes; `OtherKind` stands for any further subclass of `Item`. */
  datatype ItemKind =
    | Backpack | Lantern | SleepingBag | Tent | TrangiaKitchen
    | FishingBait | FishingNet | FishingRod
    | Kayak | ElectricBoat | MotorBoat | RowBoat
    | OtherKind

  /** The family a kind belongs to (the `instanceof CampingEquipment` etc. tests). */
  function CategoryOf(k: ItemKind): Option<Category>
  {
    match k
    case Backpack | Lantern | SleepingBag | Tent | TrangiaKitchen => Some(Camping)
    case FishingBait | FishingNet | FishingRod => Some(Fishing)
    case Kayak | ElectricBoat | MotorBoat | RowBoat => Some(WaterVehicle)
    case OtherKind => None
  }

  /** The category menu: 1 = camping, 2 = fishing, 3 = boats; any other number selects nothing. */
  function CategoryOfChoice(choice: int): Option<Category>
  {
    if choice == 1 then Some(Camping)
    else if choice == 2 then Some(Fishing)
    else if choice == 3 then Some(WaterVehicle)
    else None
  }

  /** Whether an item of kind `k` is listed under menu category `choice`. */
  predicate InCategory(k: ItemKind, choice: int)
  {
    CategoryOfChoice(choice).Some? && CategoryOf(k) == CategoryOfChoice(choice)
  }

  /**
   * The tier discount, as a fraction of the price.  ReceiptGenerator, RentalView and
   * ShoppingCart each carry an identical copy of this table.
   */
  function Discount(level: MembershipLevel): (d: real)
    ensures 0.0 <= d < 1.0
  {
    match level
    case Standard => 0.0
    case Student => 0.20
    case Premium => 0.30
  }
}
