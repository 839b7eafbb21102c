/**
 * ItemSelector: which items a category lists, how a typed number picks one of them, the
 * comma-list multi-selection, the period and duration menus, and the Swedish type labels.
 */
module ItemSelection {
  import opened Wrappers
  import opened Domain
  import opened Text
  import opened ItemModel
  import opened InventoryModel
  import opened InputValidation
  import opened Selection

  /** The items of `all` that are AVAILABLE and listed under menu category `choice`, in list order. */
  function AvailableIn(all: seq<Item>, choice: int): (r: seq<Item>)
    reads all
    ensures |r| <= |all|
    ensures forall i :: 0 <= i < |r| ==>
              r[i] in all && r[i].status == ItemStatus.Available && InCategory(r[i].kind, choice)
    ensures forall i :: 0 <= i < |all| && all[i].status == ItemStatus.Available && InCategory(all[i].kind, choice)
              ==> all[i] in r
  {
    if |all| == 0 then []
    else
      var prev := AvailableIn(all[..|all| - 1], choice);
      var x := all[|all| - 1];
      if x.status == ItemStatus.Available && InCategory(x.kind, choice) then prev + [x] else prev
  }

  /** A menu number other than 1, 2 or 3 lists nothing. */
  lemma {:induction false} NoCategoryListsNothing(all: seq<Item>, choice: int)
    requires choice < 1 || choice > 3
    ensures AvailableIn(all, choice) == []
  {
    if |all| > 0 {
      NoCategoryListsNothing(all[..|all| - 1], choice);
    }
  }

  /**
   * getAvailableItemsByCategory: the inventory's list (in its iteration order, returned as
   * `all`), filtered to the available items of the chosen category.
   */
  method GetAvailableItemsByCategory(inventory: Inventory, categoryChoice: int)
    returns (availableItems: seq<Item>, ghost all: seq<Item>)
    requires inventory.Valid()
    ensures |all| == inventory.GetItemCount()
    ensures forall k :: k in inventory.items ==> inventory.items[k] in all
    ensures forall i :: 0 <= i < |all| ==> all[i].id in inventory.items && inventory.items[all[i].id] == all[i]
    ensures availableItems == AvailableIn(all, categoryChoice)
  {
    var allItems := inventory.GetAllItems();
    all := allItems;
    availableItems := [];
    var i := 0;
    while i < |allItems|
      invariant 0 <= i <= |allItems|
      invariant availableItems == AvailableIn(allItems[..i], categoryChoice)
    {
      var item := allItems[i];
      assert allItems[..i + 1][..i] == allItems[..i];
      if item.status != ItemStatus.Available {
        i := i + 1;
        continue;
      }
      if categoryChoice == 1 {
        if CategoryOf(item.kind) == Some(Camping) {
          availableItems := availableItems + [item];
        }
      } else if categoryChoice == 2 {
        if CategoryOf(item.kind) == Some(Fishing) {
          availableItems := availableItems + [item];
        }
      } else if categoryChoice == 3 {
        if CategoryOf(item.kind) == Some(WaterVehicle) {
          availableItems := availableItems + [item];
        }
      }
      i := i + 1;
    }
    assert allItems[..i] == allItems;
  }

  /** selectItem's index mapping: 0 goes back, n picks the n-th listed item. */
  function ItemAt(availableItems: seq<Item>, itemChoice: int): (r: Option<Item>)
    requires 0 <= itemChoice <= |availableItems|
    ensures r.None? <==> itemChoice == 0
    ensures r.Some? ==> r.value == availableItems[itemChoice - 1] && r.value in availableItems
  {
    if itemChoice == 0 then None else Some(availableItems[itemChoice - 1])
  }

  /**
   * selectItem over a listed category: nothing when the list is empty, otherwise the item the
   * first acceptable number in 0..size names (0 for none).
   */
  method SelectItem(availableItems: seq<Item>, lines: seq<string>) returns (r: Option<Item>)
    ensures |availableItems| == 0 ==> r.None?
    ensures |availableItems| > 0 ==>
      match FirstInt(lines, 0, |availableItems|)
      case None => r.None?
      case Some(reading) => r == ItemAt(availableItems, reading.value)
    ensures r.Some? ==> r.value in availableItems
  {
    if |availableItems| == 0 {
      return None;
    }
    var itemChoice := GetIntInRange(lines, 0, |availableItems|);
    if itemChoice.None? {
      return None;
    }
    r := ItemAt(availableItems, itemChoice.value.value);
  }

  /**
   * selectMultipleItems given the line typed: nothing for an empty list, a blank line or "0";
   * otherwise the comma-list selection over the listed items.
   */
  method SelectMultipleItems(availableItems: seq<Item>, line: string) returns (selectedItems: seq<Item>)
    ensures selectedItems == (if |availableItems| == 0 || Trim(line) == [] || Trim(line) == "0" then []
                              else Selected(Split(Trim(line), ','), availableItems))
  {
    selectedItems := [];
    if |availableItems| == 0 {
      return;
    }
    var input := Trim(line);
    if |input| == 0 {
      return;
    }
    if input == "0" {
      return;
    }
    selectedItems := ParseSelection(input, availableItems);
  }

  /** selectPeriod's mapping: 1 is HOURLY and the only other accepted answer, 2, is DAILY. */
  function PeriodOfChoice(choice: int): (p: RentalPeriod)
    requires 1 <= choice <= 2
    ensures p == Hourly <==> choice == 1
    ensures p == Daily <==> choice == 2
  {
    if choice == 1 then Hourly else Daily
  }

  /** selectPeriod: the period of the first answer in 1..2. */
  method SelectPeriod(lines: seq<string>) returns (r: Option<Reading<RentalPeriod>>)
    ensures match FirstInt(lines, 1, 2)
      case None => r.None?
      case Some(reading) => r == Some(Reading(PeriodOfChoice(reading.value), reading.used))
  {
    var choice := GetIntInRange(lines, 1, 2);
    if choice.None? {
      return None;
    }
    return Some(Reading(PeriodOfChoice(choice.value.value), choice.value.used));
  }

  /** selectDuration: the first answer in 1..365, whatever the period (which only words the prompt). */
  method SelectDuration(lines: seq<string>, period: RentalPeriod) returns (r: Option<Reading<int>>)
    ensures r == FirstInt(lines, 1, 365)
    ensures r.Some? ==> 1 <= r.value.value <= 365
  {
    r := GetIntInRange(lines, 1, 365);
  }

  /** getItemTypeDescription: the Swedish label of each kind, "Artikel" for any other item. */
  function ItemTypeDescription(kind: ItemKind): (description: string)
    ensures description == "Artikel" <==> kind == OtherKind
  {
    match kind
    case FishingRod => "Fiskespö"
    case FishingNet => "Fiskenät"
    case FishingBait => "Bete"
    case Tent => "Tält"
    case Backpack => "Ryggsäck"
    case SleepingBag => "Sovsäck"
    case Lantern => "Lykta"
    case TrangiaKitchen => "Trangiakök"
    case Kayak => "Kajak"
    case MotorBoat => "Motorbåt"
    case ElectricBoat => "Elbåt"
    case RowBoat => "Roddbåt"
    case OtherKind => "Artikel"
  }

  /** Different kinds get different labels. */
  lemma LabelsDistinct(a: ItemKind, b: ItemKind)
    requires a != b
    ensures ItemTypeDescription(a) != ItemTypeDescription(b)
  {
  }
}
