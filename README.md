# Member club rental ledger

A Dafny model of the rental ledger of a small member club. The club rents out camping gear,
fishing equipment and boats to members, who belong to one of three tiers (STANDARD, STUDENT or
PREMIUM). The model covers:

- the entities `Item`, `Member` and `Rental`;
- the stores (`Inventory`, `MemberRegistry`, `RevenueService`) and the id generators;
- `RentalService`, which creates and completes rentals;
- the two price policies;
- the late-fee arithmetic of `ReceiptGenerator`;
- the return loops of `ReturnHandler`;
- the shopping cart and `RentalView.checkout`;
- member management in `MembershipService`;
- the selection and validation helpers of the console.

Layout:

- `ledger.dfy` is the heart of the model. It describes the whole ledger as one value, a `Club`:
  the state of every item and member, the list of rentals and the rental counter. It defines
  `rentItem` and `returnItem` as functions on that value, `Rent` and `Return`, and proves the
  ledger's invariant about them. The invariant is: an item is RENTED exactly when one ACTIVE
  rental references it.
- `rental_service.dfy` models `RentalService` as a class over `Item`, `Member` and `Rental`
  objects. A ghost `club` records the state the objects spell out, and every method is proved
  to move that state by `Rent` or `Return`. So the ledger lemmas hold of the objects.
- The other core files each have a module of their own:
  - `item.dfy`, `member.dfy`, `rental.dfy`;
  - `pricing.dfy`, `receipts.dfy`;
  - `inventory.dfy`, `registry.dfy`, `revenue.dfy`;
  - `item_ids.dfy`, `member_ids.dfy`;
  - `membership.dfy`, `cart.dfy`, `rental_view.dfy`, `return_handler.dfy`;
  - `item_selector.dfy`, `input_validator.dfy`, `selection.dfy`;
  - `club_system.dfy`, the wiring of `ClubSystem`.
- Shared definitions live in `domain.dfy` (the enumerations and the tier discount table),
  `text.dfy` (trim, split, `%03d`, `Integer.parseInt`, lower-casing, `contains`) and
  `wrappers.dfy` (`Option`).

Modelling conventions:

- Money is `real`, so sums are exact. `Math.round(x)` is the integer `n` with
  `n - 1/2 <= x < n + 1/2`.
- Dates are day numbers, and date-times are (day, hour, minute).
- The clock is a parameter (`today`, `now`).
- Console input is a sequence of lines. A read-until-valid loop that runs out of lines yields
  `None`. The six `InputValidator` readers share one loop, `ReadUntil`, which takes the reader's
  line test as a function value. The loop returns `FirstAccepted`: the first line the test
  accepts, its value, and how many lines were read.
- Item subclasses become a kind tag (`ItemKind`), and the three families a `Category`.
- Member ids are Java `int`s (`Text.Int32`).
- Rental, item and member states are snapshot datatypes (`RentalData`, `ItemData`,
  `MemberData`), read from the objects by `Data()`.
- The inventory and the registry are shared with other code, which fills and edits them after
  the rental service exists. The ghost method `RentalService.Resync` re-reads both stores
  into the service's ledger after such a change, so the service's operations apply in every
  state the program reaches.
- The count getters (`getItemCount`, `getMemberCount`, `size`) have no contract of their own:
  the operations that change a store or the cart state how its count moves.

Points where the model follows the code closely and a reader might expect otherwise:

- Cart lines are priced at the undiscounted base price (`RentalView.java:174,240,263`), and the
  tier discount is applied once, to the cart total at checkout.
- `returnItem` has no ACTIVE guard. It completes whatever rental carries the id.
- `checkout` does not clear the cart.
- `ClubSystem` constructs `MembershipService` with one argument, but the class declares a
  two-argument constructor (registry and member id generator). The model follows the class.

## Model

| member | source | states |
|---|---|---|
| Domain.Discount | src/com/memberclub/ui/components/ReceiptGenerator.java:346-354 | the tier discount table (STANDARD 0, STUDENT 0.20, PREMIUM 0.30) is a fraction in [0, 1) |
| ItemModel.ExactlyOneStatus | src/com/memberclub/model/Item.java:72-90 | exactly one of isAvailable, isRented and isBroken holds |
| ItemModel.Item.constructor | src/com/memberclub/model/Item.java:22-28 | a new item stores its id, name, daily rate and hourly rate in argument order and is AVAILABLE |
| ItemModel.Item.SetStatus | src/com/memberclub/model/Item.java:64-66 | only the status changes; id, name and both rates stay |
| ItemModel.Item.SetName | src/com/memberclub/model/Item.java:52-54 | only the name changes |
| ItemModel.Item.SetPricePerDay | src/com/memberclub/model/Item.java:56-58 | only the daily rate changes |
| ItemModel.Item.SetPricePerHour | src/com/memberclub/model/Item.java:60-62 | only the hourly rate changes |
| MemberModel.Member.constructor | src/com/memberclub/model/Member.java:29-37 | a new member has the given id, contact fields and tier, and an empty rental history |
| MemberModel.Member.AddRental | src/com/memberclub/model/Member.java:84-86 | the id is appended at the end of the history and nothing else changes |
| MemberModel.Member.SetMembershipLevel | src/com/memberclub/model/Member.java:76-78 | only the tier changes; id and history are untouched |
| MemberModel.Member.SetName | src/com/memberclub/model/Member.java:64-66 | only the name changes |
| MemberModel.Member.SetEmail | src/com/memberclub/model/Member.java:68-70 | only the e-mail changes |
| MemberModel.Member.SetPhone | src/com/memberclub/model/Member.java:72-74 | only the phone changes |
| RentalModel.Rental.constructor | src/com/memberclub/model/Rental.java:32-43 | a new rental holds the given fields and is ACTIVE |
| RentalModel.Rental.SetStatus | src/com/memberclub/model/Rental.java:79-81 | any status can be set; nothing else changes |
| RentalModel.Rental.Complete | src/com/memberclub/model/Rental.java:110-113 | the state becomes AfterComplete of the old state |
| RentalModel.Rental.Cancel | src/com/memberclub/model/Rental.java:118-120 | the state becomes AfterCancel of the old state |
| RentalModel.AfterComplete | src/com/memberclub/model/Rental.java:110-113 | COMPLETED, not active, end date today, from any prior status; the six final fields are unchanged |
| RentalModel.AfterCancel | src/com/memberclub/model/Rental.java:118-120 | CANCELLED (neither active nor completed); the end date and the final fields are unchanged |
| RentalModel.ActiveExcludesCompleted | src/com/memberclub/model/Rental.java:95-105 | isActive and isCompleted are never both true |
| RentalModel.FirstIndex | src/com/memberclub/service/RentalService.java:170-179 | the first position with the id, or None exactly when no rental has the id |
| RentalModel.ActiveOf | src/com/memberclub/service/RentalService.java:134-150 | the ACTIVE entries: a rental is in the result exactly when it is in the list and ACTIVE |
| Pricing.StandardPrice | src/com/memberclub/pricing/StandardPricing.java:15-23 | standard pricing. The rule itself (HOURLY: pricePerHour × duration; DAILY: pricePerDay × duration) is written out as the definition of `StandardPrice` in pricing.dfy; its lemmas state that it is linear in the duration, non-negative for non-negative inputs and independent of the member |
| Pricing.Linear | src/com/memberclub/pricing/StandardPricing.java:15-23 | both policies are additive in the duration, double for a doubled duration and free at duration 0 |
| Pricing.MemberIrrelevant | src/com/memberclub/pricing/PremiumPricing.java:18-27 | the member argument never changes either price |
| Pricing.PremiumPrice | src/com/memberclub/pricing/PremiumPricing.java:14-27 | premium pricing; its lemmas state that it is 70% of the standard price, linear in the duration and independent of the member |
| Pricing.PremiumIsSeventyPercent | src/com/memberclub/pricing/PremiumPricing.java:14-27 | the premium price is 0.7 × the standard price, so between 0 and the standard price for non-negative rates and durations |
| Pricing.NonNegative | src/com/memberclub/pricing/StandardPricing.java:15-23 | non-negative rates and duration give non-negative prices |
| Receipts.Round | src/com/memberclub/ui/components/ReceiptGenerator.java:250-251 | Math.round: the nearest integer, halves rounded up |
| Receipts.RoundOfInteger | src/com/memberclub/ui/components/ReceiptGenerator.java:250-251 | rounding a whole number gives that number |
| Receipts.LateFee | src/com/memberclub/ui/components/ReceiptGenerator.java:239-272 | calculateLateFee; Receipts.LateFeeCases and Receipts.LateFeeMonotone state that it is ≥ 0, 0 exactly for an on-time return, and non-decreasing in the return day |
| Receipts.LateFeeCases | src/com/memberclub/ui/components/ReceiptGenerator.java:239-272 | with a positive effective rate the late fee is ≥ 0, and it is 0 exactly when daysRented ≤ expectedDays |
| Receipts.LateFeeMonotone | src/com/memberclub/ui/components/ReceiptGenerator.java:254-271 | a later return never costs less |
| Receipts.BulkLateFeeInfo | src/com/memberclub/ui/components/ReceiptGenerator.java:281-339 | calculateBulkLateFeeInfo; Receipts.BulkInfoMatchesFee states that the note exists exactly when the late fee is positive and carries that fee |
| Receipts.BulkInfoMatchesFee | src/com/memberclub/ui/components/ReceiptGenerator.java:281-339 | the bulk note exists exactly when the fee is positive, and then it carries that fee and a positive day count |
| Receipts.DailyExpectedDaysIsDuration | src/com/memberclub/ui/components/ReceiptGenerator.java:246-251 | for a DAILY rental priced by the standard or premium policy at the current tier, the reconstructed expected days equal the booked duration |
| Receipts.TotalAfterDiscount | src/com/memberclub/ui/components/ReceiptGenerator.java:77-79 | the discounted receipt total; Receipts.TotalAfterDiscountBounds states that it is the tier's share of the total, between 0 and the total |
| Receipts.TotalAfterDiscountBounds | src/com/memberclub/ui/components/ReceiptGenerator.java:77-79 | the receipt total is totalBefore × (1 − discount), between 0 and totalBefore, and equal to it for STANDARD |
| Receipts.PlusHours | src/com/memberclub/ui/components/ReceiptGenerator.java:106 | plusHours keeps the minute, gives a valid time and moves the timestamp by exactly 60 × h minutes |
| Receipts.ReturnDateTime | src/com/memberclub/ui/components/ReceiptGenerator.java:99-151 | DAILY: the final day at 20:00. HOURLY: unchanged inside 08:00–19:59. Otherwise the time is moved to 08:00 the next day plus the hours past 20:00, or to 08:00 the same day, and lands on a quarter hour within 7 minutes of that moved time, which fixes it exactly; the result is inside opening hours |
| Revenue.Credited | src/com/memberclub/service/RevenueService.java:22-27 | a credit never lowers the total, and raises it exactly when the amount is positive |
| Revenue.CreditedAll | src/com/memberclub/service/RevenueService.java:22-27 | addRevenue applied to a list of amounts; Revenue.CreditedAllIsPositivePart states that the total grows by the sum of the positive amounts |
| Revenue.CreditedAllIsPositivePart | src/com/memberclub/service/RevenueService.java:22-27 | any run of addRevenue calls adds exactly the sum of the positive amounts, so the total never falls |
| Revenue.RevenueService.constructor | src/com/memberclub/service/RevenueService.java:14-16 | the total starts at 0 |
| Revenue.RevenueService.AddRevenue | src/com/memberclub/service/RevenueService.java:22-27 | the total becomes Credited(old total, amount) and stays non-negative |
| Revenue.RevenueService.GetTotalRevenue | src/com/memberclub/service/RevenueService.java:33-35 | the total is never negative |
| Revenue.RevenueService.ResetRevenue | src/com/memberclub/service/RevenueService.java:41-43 | the total becomes 0 |
| InventoryModel.Inventory.constructor | src/com/memberclub/service/Inventory.java:21-23 | a new inventory is empty |
| InventoryModel.Inventory.AddItem | src/com/memberclub/service/Inventory.java:29-31 | the item is filed under its id, replacing any item with that id, and getItem finds it; the count grows by one exactly when the id is new |
| InventoryModel.Inventory.GetItem | src/com/memberclub/service/Inventory.java:38-40 | the item with that id, or None exactly when the id is absent |
| InventoryModel.Inventory.RemoveItem | src/com/memberclub/service/Inventory.java:47-54 | true exactly when the id was present; afterwards it is absent, every other entry stays, and the count drops by one exactly when the answer is true |
| InventoryModel.Inventory.GetItemCount | src/com/memberclub/service/Inventory.java:69-71 | the number of stored ids; it has no contract of its own, and AddItem and RemoveItem state how it moves |
| InventoryModel.Inventory.GetAllItems | src/com/memberclub/service/Inventory.java:60-63 | every stored item exactly once, so the length is the item count |
| RegistryModel.MemberRegistry.constructor | src/com/memberclub/service/MemberRegistry.java:21-23 | a new registry is empty |
| RegistryModel.MemberRegistry.AddMember | src/com/memberclub/service/MemberRegistry.java:29-31 | the member is filed under its id, replacing any member with that id; the count grows by one exactly when the id is new |
| RegistryModel.MemberRegistry.GetMember | src/com/memberclub/service/MemberRegistry.java:38-40 | the member with that id, or None exactly when the id is absent |
| RegistryModel.MemberRegistry.RemoveMember | src/com/memberclub/service/MemberRegistry.java:47-54 | true exactly when the id was present; afterwards it is absent, the rest stays, and the count drops by one exactly when the answer is true |
| RegistryModel.MemberRegistry.GetMemberCount | src/com/memberclub/service/MemberRegistry.java:69-71 | the number of registered ids; it has no contract of its own, and AddMember and RemoveMember state how it moves |
| RegistryModel.MemberRegistry.GetAllMembers | src/com/memberclub/service/MemberRegistry.java:60-63 | every registered member exactly once, so the length is the member count |
| MemberIds.Succ | src/com/memberclub/system/MemberIdGenerator.java:14-16 | counter++ on a Java int: one more, except that the largest int wraps to the smallest |
| MemberIds.CounterAfterCalls | src/com/memberclub/system/MemberIdGenerator.java:8-16 | before the wrap, n calls leave the counter at n + 1 |
| MemberIds.IssuedIdsDistinct | src/com/memberclub/system/MemberIdGenerator.java:8-16 | the first id is 1, each later id is one more, and ids below the wrap are positive and pairwise distinct |
| MemberIds.WrapsAfterMaxInt | src/com/memberclub/system/MemberIdGenerator.java:14-16 | after the largest int the generator hands out the smallest |
| MemberIds.MemberIdGenerator.constructor | src/com/memberclub/system/MemberIdGenerator.java:8 | the counter starts at 1 |
| MemberIds.MemberIdGenerator.GenerateMemberId | src/com/memberclub/system/MemberIdGenerator.java:14-16 | returns the counter before the call, which is CounterAfter(number of earlier calls) |
| ItemIds.Prefix | src/com/memberclub/system/ItemIdGenerator.java:28-76 | each prefix is capital letters followed by '-' |
| ItemIds.PrefixesDistinct | src/com/memberclub/system/ItemIdGenerator.java:28-76 | the twelve prefixes are pairwise different |
| ItemIds.DashEndsPrefix | src/com/memberclub/system/ItemIdGenerator.java:28-76 | in an id, the first '-' ends the prefix and only digits follow |
| ItemIds.KindsNeverCollide | src/com/memberclub/system/ItemIdGenerator.java:28-76 | generators of two different kinds never produce the same id |
| ItemIds.SameKindInjective | src/com/memberclub/system/ItemIdGenerator.java:28-76 | one generator never repeats an id |
| ItemIds.FirstIds | src/com/memberclub/system/ItemIdGenerator.java:10-29 | the first id of every kind is its prefix followed by "001" |
| ItemIds.ItemIdGenerator.constructor | src/com/memberclub/system/ItemIdGenerator.java:10-25 | all twelve counters start at 1 |
| ItemIds.ItemIdGenerator.GenerateId | src/com/memberclub/system/ItemIdGenerator.java:28-76 | the id for the kind's current counter; that counter, and no other, moves up by one |
| Text.Trim | src/com/memberclub/ui/components/ReturnHandler.java:145 | String.trim; Text.TrimIsCore and Text.TrimIdempotent state what it removes and that it is idempotent |
| Text.TrimIsCore | src/com/memberclub/ui/components/ReturnHandler.java:145 | trim removes exactly the leading and trailing characters ≤ U+0020 |
| Text.TrimIdempotent | src/com/memberclub/ui/components/ReturnHandler.java:145 | trimming twice is trimming once |
| Text.JoinSplit | src/com/memberclub/ui/components/ReturnHandler.java:156 | the pieces between separators, glued back with the separator, give the input |
| Text.Split | src/com/memberclub/ui/components/ReturnHandler.java:156 | split on ',' gives pieces without ','; a string without ',' splits into itself |
| Text.Pad3 | src/com/memberclub/service/RentalService.java:72 | `%03d`: at least three characters, all digits; Text.Pad3Value and Text.Pad3Injective state that it reads back as the number |
| Text.Pad3Value | src/com/memberclub/service/RentalService.java:72 | the `%03d` code reads back as the number |
| Text.Pad3Injective | src/com/memberclub/service/RentalService.java:72 | different counters give different padded codes |
| Text.ParseInt | src/com/memberclub/ui/components/ReturnHandler.java:166 | Integer.parseInt on an optional sign and ASCII digits: any accepted value is a 32-bit int. Text.ParseIntToString gives the round trip from every int, and Text.ParseIntAccepted, ParseIntLeadingZeros, the three examples and ParseIntRejectsStray cover the other direction |
| Text.ParseIntToString | src/com/memberclub/ui/components/ReturnHandler.java:166 | every 32-bit integer parses back from its decimal form |
| Text.ParseIntAccepted | src/com/memberclub/ui/components/ReturnHandler.java:166 | every accepted string is an optional '+' or '-' and then at least one digit, and its value is those digits' value with that sign |
| Text.ParseIntLeadingZeros | src/com/memberclub/ui/components/ReturnHandler.java:166 | leading zeros and a '+' sign give the same answer as the bare digits |
| Text.ParseIntLeadingZerosExample | src/com/memberclub/ui/components/ReturnHandler.java:166 | "007" parses to 7 |
| Text.ParseIntPlusExample | src/com/memberclub/ui/components/ReturnHandler.java:166 | "+5" parses to 5 |
| Text.ParseIntNegativeZeroExample | src/com/memberclub/ui/components/ReturnHandler.java:166 | "-0" parses to 0 |
| Text.ParseIntRejectsStray | src/com/memberclub/ui/components/ReturnHandler.java:166 | a stray character refuses the whole string: "1a", " 1" and "1-" do not parse |
| Text.ToLower | src/com/memberclub/service/MembershipService.java:117 | lower-cases A–Z and the Latin-1 capitals À–Þ other than ×, one character for one, and keeps every other character |
| Ledger.Rent | src/com/memberclub/service/RentalService.java:42-97 | rentItem on the whole ledger; Ledger.RentRefusedChangesNothing, Ledger.RentGranted and Ledger.RentPreservesConsistency state its refusals, its effect and the invariant it keeps |
| Ledger.RentRefusedChangesNothing | src/com/memberclub/service/RentalService.java:45-63 | rentItem returns null exactly for an unknown member, an unknown item or an item that is not AVAILABLE, and then nothing changes |
| Ledger.RentGranted | src/com/memberclub/service/RentalService.java:66-93 | a granted rental appends exactly one rental: ACTIVE, no end date, starting today, due by ExpectedReturnDate (today for HOURLY, today + duration for DAILY, written out as the definition of `ExpectedReturnDate` in ledger.dfy), priced by the tier policy and numbered by the counter. The item becomes RENTED, the id is appended to the member's history and the counter moves up; nothing else changes |
| Ledger.Return | src/com/memberclub/service/RentalService.java:104-128 | returnItem on the whole ledger; Ledger.ReturnEffect and Ledger.ReReturnFreesRentedItem state its effect and the run that breaks the invariant |
| Ledger.ReturnActive | src/com/memberclub/service/RentalService.java:104-128 | returnItem with an ACTIVE guard; Ledger.GuardedReturnPreservesConsistency and Ledger.GuardedReturnRefusesReReturn state that it keeps the invariant and agrees with returnItem whenever it accepts |
| Ledger.ReturnEffect | src/com/memberclub/service/RentalService.java:104-128 | an unknown id returns false with no change; a known id completes its first rental with end date today, whatever its status, and makes that rental's item AVAILABLE; nothing else changes |
| Ledger.InitialConsistent | src/com/memberclub/service/RentalService.java:27-32 | a ledger with no rentals and no RENTED item satisfies "RENTED ⇔ exactly one ACTIVE rental" |
| Ledger.RentPreservesConsistency | src/com/memberclub/service/RentalService.java:61-93 | rentItem keeps "RENTED ⇔ exactly one ACTIVE rental" |
| Ledger.ReturnOfActivePreservesConsistency | src/com/memberclub/service/RentalService.java:107-122 | returnItem keeps the invariant when the rental it finds is ACTIVE |
| Ledger.GuardedReturnPreservesConsistency | src/com/memberclub/service/RentalService.java:104-128 | the guarded return keeps the invariant on every input, and agrees with returnItem whenever it accepts |
| Ledger.ReReturnFreesRentedItem | src/com/memberclub/service/RentalService.java:107-122 | rent, return, rent again, then re-return the first rental: the re-return is accepted and frees an item that an ACTIVE rental still holds, which breaks the invariant |
| Ledger.GuardedReturnRefusesReReturn | src/com/memberclub/service/RentalService.java:107-122 | on the same run the guarded return refuses and the item stays RENTED |
| Ledger.RentalIdInjective | src/com/memberclub/service/RentalService.java:72 | different counter values give different "RENT-NNN" ids |
| Ledger.WellNumberedIdsDistinct | src/com/memberclub/service/RentalService.java:72-73 | while the ids follow the counter, no two rentals share an id |
| Ledger.TransitionsKeepNumbering | src/com/memberclub/service/RentalService.java:72-73 | rentItem gives the new rental the next id, and returnItem changes no id |
| RentalServiceModel.ActiveRentals | src/com/memberclub/service/RentalService.java:134-150 | exactly the ACTIVE rentals of the list |
| RentalServiceModel.RentalService.constructor | src/com/memberclub/service/RentalService.java:27-32 | no rentals, counter 1, over the given inventory and registry |
| RentalServiceModel.RentalService.Resync | src/com/memberclub/system/ClubSystem.java:30-36 | after other code fills or edits the shared stores, the ghost ledger re-reads the stock and the members, keeps the rentals and the counter, and the service is usable again |
| RentalServiceModel.RentalService.RentItem | src/com/memberclub/service/RentalService.java:42-97 | the ledger moves by Rent; a rental is returned exactly when Rent grants one, and it is a new object appended to the list |
| RentalServiceModel.RentalService.ReturnItem | src/com/memberclub/service/RentalService.java:104-128 | the ledger moves by Return and the answer is Return's |
| RentalServiceModel.RentalService.ReturnActiveItem | src/com/memberclub/service/RentalService.java:104-128 | the guarded return moves the ledger by ReturnActive and keeps the invariant |
| RentalServiceModel.RentalService.GetActiveRentals | src/com/memberclub/service/RentalService.java:134-150 | the loop's result is ActiveRentals of the service's list |
| RentalServiceModel.RentalService.GetAllRentals | src/com/memberclub/service/RentalService.java:156-160 | the service's list itself |
| RentalServiceModel.RentalService.GetRental | src/com/memberclub/service/RentalService.java:167-180 | the first rental with the id, or None when no rental has it; it needs only the rental list to be coupled |
| ClubSystemModel.Build | src/com/memberclub/system/ClubSystem.java:23-37 | the service is built over empty stores and the stores are filled afterwards; after Resync the service's ledger holds exactly the loaded item (AVAILABLE) and member, no rentals and counter 1 |
| ClubSystemModel.LoadSampleData | src/com/memberclub/system/ClubSystem.java:34-36 | the stores end up holding exactly the one new item and the one new member, both well filed |
| ClubSystemModel.LoadThenRent | src/com/memberclub/system/ClubSystem.java:23-37 | after that wiring, a rental of a loaded item by a loaded member is then granted, ACTIVE, with the id RENT-001 |
| Cart.Total | src/com/memberclub/ui/components/ShoppingCart.java:112-122 | the sum of the line prices; Cart.TotalAppend, Cart.TotalWithout and Cart.TotalNonNegative state additivity, removal and non-negativity |
| Cart.TotalAppend | src/com/memberclub/ui/components/ShoppingCart.java:112-122 | the total of a concatenation is the sum of the totals, so appending a line adds exactly its price |
| Cart.TotalWithout | src/com/memberclub/ui/components/ShoppingCart.java:66-75 | removing line i lowers the total by exactly that line's price |
| Cart.TotalNonNegative | src/com/memberclub/ui/components/ShoppingCart.java:112-122 | non-negative prices give a non-negative total |
| Cart.DisplayedTotalIsCheckoutTotal | src/com/memberclub/ui/components/ShoppingCart.java:172-174 | the cart display's total × (1 − discount) equals the checkout's total − total × discount |
| Cart.ShoppingCart.constructor | src/com/memberclub/ui/components/ShoppingCart.java:28-31 | a new cart is empty |
| Cart.ShoppingCart.AddItem | src/com/memberclub/ui/components/ShoppingCart.java:41-43 | one new line at the end, so the size grows by one |
| Cart.ShoppingCart.AddCartItem | src/com/memberclub/ui/components/ShoppingCart.java:49-51 | the given line at the end, so the size grows by one |
| Cart.ShoppingCart.AddAll | src/com/memberclub/ui/components/ShoppingCart.java:57-59 | the given lines at the end, in order, so the size grows by their number |
| Cart.ShoppingCart.RemoveItem | src/com/memberclub/ui/components/ShoppingCart.java:66-75 | for 0 ≤ i < size, line i comes out, the rest keep their order and the size drops by one; otherwise None and no change |
| Cart.ShoppingCart.Clear | src/com/memberclub/ui/components/ShoppingCart.java:80-82 | the cart is empty: size 0 and isEmpty |
| Cart.ShoppingCart.Size | src/com/memberclub/ui/components/ShoppingCart.java:88-90 | the number of lines; it has no contract of its own, and the operations that change the cart state how it moves |
| Cart.ShoppingCart.IsEmpty | src/com/memberclub/ui/components/ShoppingCart.java:96-98 | true exactly when the size is 0 |
| Cart.ShoppingCart.GetItems | src/com/memberclub/ui/components/ShoppingCart.java:104-106 | a value copy equal to the contents |
| Cart.ShoppingCart.GetTotalBeforeDiscount | src/com/memberclub/ui/components/ShoppingCart.java:112-122 | the loop's sum is Total(lines) |
| Cart.ShoppingCart.RemoveItemInteractive | src/com/memberclub/ui/components/ShoppingCart.java:235-251 | the first answer in 1..size names the line, so the line at that index always comes out and the size drops by one; no answer leaves the cart unchanged |
| RentalViewModel.BasePrice | src/com/memberclub/ui/RentalView.java:174 | the undiscounted line price; RentalViewModel.BasePriceIsStandardPrice states that it is the standard price for any member |
| RentalViewModel.BasePriceIsStandardPrice | src/com/memberclub/ui/RentalView.java:174 | a cart line's price is the standard price for any member, and premium pricing charges 0.7 of it |
| RentalViewModel.LinesSamePeriod | src/com/memberclub/ui/RentalView.java:223-246 | "same period" mode: one line per selected item, in order, all with the same period and duration at the base price |
| RentalViewModel.LinesPerItem | src/com/memberclub/ui/RentalView.java:247-267 | per-item mode: line i is item i with the i-th answer, at the base price |
| RentalViewModel.RentAll | src/com/memberclub/ui/RentalView.java:336-345 | at most one rental per cart line |
| RentalViewModel.RentAllSnoc | src/com/memberclub/ui/RentalView.java:336-345 | running one more line is one more rentItem |
| RentalViewModel.RentAllAppends | src/com/memberclub/ui/RentalView.java:336-345 | the ledger's rental list grows by exactly the created rentals, in order |
| RentalViewModel.RentLine | src/com/memberclub/ui/RentalView.java:336-344 | one pass of the checkout loop: the ledger moves by one rentItem, and the kept rentals grow by one exactly when a rental is created |
| RentalViewModel.RentLines | src/com/memberclub/ui/RentalView.java:333-345 | rentItem once per line in cart order; the ledger moves by RentAll and the kept rentals are the created ones |
| RentalViewModel.CheckoutRevenue | src/com/memberclub/ui/RentalView.java:347-352 | the revenue after checkout; RentalViewModel.FullCheckoutCreditsCosts states that it grows by the sum of the new rentals' costs for STANDARD and PREMIUM members |
| RentalViewModel.Checkout | src/com/memberclub/ui/RentalView.java:277-360 | declining rents and credits nothing; confirming runs RentAll over the cart and credits the discounted total of the whole cart once exactly when at least one rental was created |
| RentalViewModel.Credit | src/com/memberclub/ui/RentalView.java:351 | addRevenue changes only the revenue total |
| RentalViewModel.RentAllKeepsRates | src/com/memberclub/ui/RentalView.java:336-345 | renting changes no item rate and no member tier |
| RentalViewModel.DiscountShare | src/com/memberclub/ui/RentalView.java:302-304 | total − total × discount is total × (1 − discount) |
| RentalViewModel.FullCheckoutCreditsCosts | src/com/memberclub/ui/RentalView.java:302-351 | when every line is rented by a STANDARD or PREMIUM member, the credited total equals the sum of the new rentals' costs |
| RentalViewModel.LineCost | src/com/memberclub/ui/RentalView.java:339 | a granted line costs its base price times the tier's share |
| RentalViewModel.OpenRentals | src/com/memberclub/ui/RentalView.java:392-402 | a rental is listed exactly when it is in the list and has no end date |
| RentalViewModel.ClosedRentals | src/com/memberclub/ui/RentalView.java:392-402 | a rental is listed exactly when it is in the list and has an end date |
| RentalViewModel.PartitionCounts | src/com/memberclub/ui/RentalView.java:476-477 | every rental is in exactly one of the two lists, so the counts sum to the total |
| RentalViewModel.CancelledListedOpen | src/com/memberclub/ui/RentalView.java:392-402 | a CANCELLED rental without an end date is listed as active, though getActiveRentals omits it |
| RentalViewModel.ActiveNeverCancelled | src/com/memberclub/service/RentalService.java:143 | getActiveRentals never lists a CANCELLED rental |
| RentalViewModel.OpenIsActiveWhenTracked | src/com/memberclub/ui/RentalView.java:392-402 | where the end date is unset exactly on the ACTIVE rentals, the open list is getActiveRentals |
| RentalViewModel.TransitionsTrackStatus | src/com/memberclub/service/RentalService.java:84-128 | rentItem and returnItem keep "no end date ⇔ ACTIVE" |
| RentalViewModel.PartitionByEndDate | src/com/memberclub/ui/RentalView.java:392-402 | the split is OpenRentals and ClosedRentals, and the counts add up |
| ReturnHandling.Chargeable | src/com/memberclub/ui/components/ReceiptGenerator.java:246-251 | the condition under which the late fee is a number: the rental's item and member are on the ledger and the discounted daily rate is positive |
| ReturnHandling.Fee | src/com/memberclub/ui/components/ReceiptGenerator.java:314-339 | the fee read from the ledger is the late fee of the rental's item and member |
| ReturnHandling.ReturnUnmoved | src/com/memberclub/service/RentalService.java:107-122 | a return changes no daily rate, no member and no rental's terms |
| ReturnHandling.BulkPrefix | src/com/memberclub/ui/components/ReturnHandler.java:364-399 | after n rentals, successCount = number of returned items ≤ n, and no rate has moved |
| ReturnHandling.BulkReturn | src/com/memberclub/ui/components/ReturnHandler.java:356-399 | successCount = number of returned items ≤ the number of rentals |
| ReturnHandling.BulkStep | src/com/memberclub/ui/components/ReturnHandler.java:367-397 | one rental of the bulk loop: no rate, member or rental terms move; ReturnHandling.BulkStepEffect states how the totals move |
| ReturnHandling.BulkStepEffect | src/com/memberclub/ui/components/ReturnHandler.java:371-397 | one rental: the fee is added only when returnItem succeeded and the fee is positive; count and items grow only on success |
| ReturnHandling.BulkFeesNonNegative | src/com/memberclub/ui/components/ReturnHandler.java:374-390 | the fee total is never negative, and it is positive only when some return succeeded |
| ReturnHandling.UnknownSkipped | src/com/memberclub/ui/components/ReturnHandler.java:371-374 | a failed return changes nothing and the loop goes on |
| ReturnHandling.BulkPrefixStep | src/com/memberclub/ui/components/ReturnHandler.java:371-397 | one more rental of the list moves the fee total, the count and the items by that rental's return, with the fee the ledger gives before the run |
| ReturnHandling.KnownReturnsSucceed | src/com/memberclub/service/RentalService.java:104-128 | without the ACTIVE guard, a rental of the list that the ledger knows is returned successfully whatever came before it in the list |
| ReturnHandling.KnownStep | src/com/memberclub/ui/components/ReturnHandler.java:371-397 | a known rental adds one success, its item and its fee |
| ReturnHandling.TwoKnownReturns | src/com/memberclub/ui/components/ReturnHandler.java:359-399 | two known rentals in a row are both returned and both fees are added |
| ReturnHandling.DuplicateChargedTwice | src/com/memberclub/ui/components/ReturnHandler.java:162-175 | a rental selected twice is returned twice (success count 2) and its late fee is counted twice |
| ReturnHandling.GuardedDuplicateChargedOnce | src/com/memberclub/ui/components/ReturnHandler.java:162-175 | with the guarded return the duplicate is refused, so the fee is counted at most once |
| ReturnHandling.ReturnOne | src/com/memberclub/ui/components/ReturnHandler.java:367-384 | one returnItem; the fee for a successful return is the fee on the ledger before the return |
| ReturnHandling.BulkLine | src/com/memberclub/ui/components/ReturnHandler.java:367-397 | one loop body: the ledger moves by Return and the totals move as BulkStep says |
| ReturnHandling.ReturnNext | src/com/memberclub/ui/components/ReturnHandler.java:364-399 | one loop turn takes the totals from BulkPrefix n to BulkPrefix n + 1 |
| ReturnHandling.ReturnEach | src/com/memberclub/ui/components/ReturnHandler.java:359-399 | the loop's ledger, fee total, success count and returned items are BulkReturn's |
| ReturnHandling.ProcessReturnBulk | src/com/memberclub/ui/components/ReturnHandler.java:356-408 | BulkReturn's results, and the revenue credited once with the fee total, which moves it only when the total is positive |
| ReturnHandling.ProcessReturn | src/com/memberclub/ui/components/ReturnHandler.java:326-350 | the ledger moves by Return; the revenue grows by the late fee only when the return succeeded and the fee is positive |
| ReturnHandling.ReturnSelection | src/com/memberclub/ui/components/ReturnHandler.java:145-175 | a blank line selects nothing; otherwise the comma-list selection over the active rentals |
| ReturnHandling.Dedup | src/com/memberclub/ui/components/ReturnHandler.java:225-233 | duplicate-free, with the same members as the input |
| ReturnHandling.GroupMembers | src/com/memberclub/ui/components/ReturnHandler.java:225-233 | the registered members of the rentals, each once, in order of first appearance |
| ReturnHandling.SelectMember | src/com/memberclub/ui/components/ReturnHandler.java:235-276 | a single member is chosen without asking; otherwise the first answer in 0..size picks one, and 0 cancels |
| ReturnHandling.OfMember | src/com/memberclub/ui/components/ReturnHandler.java:279-286 | the rentals of the member, in order |
| ReturnHandling.MemberRentals | src/com/memberclub/ui/components/ReturnHandler.java:279-286 | the loop's result is OfMember |
| ReturnHandling.MemberRentalsActive | src/com/memberclub/ui/components/ReturnHandler.java:279-286 | every rental chosen for the member is ACTIVE and the member's |
| Membership.NameMatches | src/com/memberclub/service/MembershipService.java:117 | the lower-cased contains test; Membership.EmptyTermMatchesAll and Membership.SearchIgnoresCase state its properties |
| Membership.Matching | src/com/memberclub/service/MembershipService.java:105-124 | the members whose lower-cased name contains the lower-cased term, in list order |
| Membership.EmptyTermMatchesAll | src/com/memberclub/service/MembershipService.java:117 | an empty term lists every member |
| Membership.SearchIgnoresCase | src/com/memberclub/service/MembershipService.java:117 | a term and its lower-cased form find the same members |
| Membership.MembershipService.constructor | src/com/memberclub/service/MembershipService.java:23-26 | over the given registry and id generator |
| Membership.MembershipService.AddMember | src/com/memberclub/service/MembershipService.java:32-34 | the member is filed under its id |
| Membership.MembershipService.AddNewMember | src/com/memberclub/service/MembershipService.java:44-49 | a new member with the generator's next id and an empty history, filed under that id |
| Membership.MembershipService.RemoveMember | src/com/memberclub/service/MembershipService.java:56-58 | true exactly when the id was registered; afterwards it is not |
| Membership.MembershipService.GetMember | src/com/memberclub/service/MembershipService.java:65-67 | the registered member with that id, or None |
| Membership.MembershipService.UpdateMemberLevel | src/com/memberclub/service/MembershipService.java:75-90 | false and no change for an unknown id; otherwise only that member's tier changes, and the answer is true |
| Membership.MembershipService.GetAllMembers | src/com/memberclub/service/MembershipService.java:96-98 | every registered member, each once |
| Membership.MembershipService.SearchMemberByName | src/com/memberclub/service/MembershipService.java:105-124 | the loop's result is Matching over the registry's list |
| Selection.Choice | src/com/memberclub/ui/components/ReturnHandler.java:166-170 | a token picks entry n − 1 exactly when it parses to n with 1 ≤ n ≤ size |
| Selection.Selected | src/com/memberclub/ui/components/ReturnHandler.java:162-175 | the tokens that name a 1-based index into the pool, in input order, with duplicates kept and invalid tokens dropped: at most one entry per token; Selection.Choice, SelectedAppend, DuplicateKept and InvalidDropped state the rules |
| Selection.SelectedAppend | src/com/memberclub/ui/components/ReturnHandler.java:162-175 | the selection of a concatenation is the concatenation of the selections, so input order is kept |
| Selection.DuplicateKept | src/com/memberclub/ui/components/ReturnHandler.java:162-175 | a number typed twice picks its entry twice |
| Selection.InvalidDropped | src/com/memberclub/ui/components/ReturnHandler.java:172-174 | a token that names no entry adds nothing |
| Selection.ParseSelection | src/com/memberclub/ui/components/ItemSelector.java:102-175 | the parsing loop's result is Selected over the split input |
| ItemSelection.AvailableIn | src/com/memberclub/ui/components/ItemSelector.java:210-250 | exactly the AVAILABLE items of the chosen category, from the list |
| ItemSelection.NoCategoryListsNothing | src/com/memberclub/ui/components/ItemSelector.java:210-250 | a menu number other than 1, 2 or 3 lists nothing |
| ItemSelection.GetAvailableItemsByCategory | src/com/memberclub/ui/components/ItemSelector.java:210-250 | the loop filters the inventory's list to AvailableIn |
| ItemSelection.ItemAt | src/com/memberclub/ui/components/ItemSelector.java:63-100 | 0 goes back, n picks the n-th listed item |
| ItemSelection.SelectItem | src/com/memberclub/ui/components/ItemSelector.java:63-100 | nothing for an empty list; otherwise the item the first answer in 0..size names |
| ItemSelection.SelectMultipleItems | src/com/memberclub/ui/components/ItemSelector.java:102-175 | nothing for an empty list, a blank line or "0"; otherwise the comma-list selection |
| ItemSelection.PeriodOfChoice | src/com/memberclub/ui/components/ItemSelector.java:177-193 | 1 is HOURLY and 2 is DAILY |
| ItemSelection.SelectPeriod | src/com/memberclub/ui/components/ItemSelector.java:177-193 | the period of the first answer in 1..2 |
| ItemSelection.SelectDuration | src/com/memberclub/ui/components/ItemSelector.java:195-208 | the first answer in 1..365, for both periods |
| ItemSelection.ItemTypeDescription | src/com/memberclub/ui/components/ItemSelector.java:381-421 | the Swedish label of each kind; "Artikel" exactly for any other item |
| ItemSelection.LabelsDistinct | src/com/memberclub/ui/components/ItemSelector.java:381-421 | different kinds get different labels |
| InputValidation.IntInRange | src/com/memberclub/ui/validation/InputValidator.java:19-71 | a line is accepted exactly when, trimmed, it is non-empty, parses as an int and is within [min, max] |
| InputValidation.FirstAccepted | src/com/memberclub/ui/validation/InputValidator.java:19-296 | what a read-until-valid loop reads: the first line the test takes, with its value; every earlier line was refused, and None means every line was |
| InputValidation.FirstInt | src/com/memberclub/ui/validation/InputValidator.java:19-71 | an accepted reading is within [min, max] and lies within the input |
| InputValidation.FirstAcceptedUnique | src/com/memberclub/ui/validation/InputValidator.java:19-296 | only one reading has FirstAccepted's properties, so any loop that stops at the first accepted line computes it |
| InputValidation.ReadUntil | src/com/memberclub/ui/validation/InputValidator.java:19-296 | the loop that reads until a line is accepted returns FirstAccepted of the lines and the test |
| InputValidation.GetIntInRange | src/com/memberclub/ui/validation/InputValidator.java:19-71 | the result is the first line within [min, max], and its value is within [min, max] |
| InputValidation.NonEmpty | src/com/memberclub/ui/validation/InputValidator.java:73-108 | the trimmed line, accepted exactly when non-empty |
| InputValidation.GetNonEmptyString | src/com/memberclub/ui/validation/InputValidator.java:73-108 | the first reading NonEmpty accepts; its value is that line trimmed and not empty |
| InputValidation.YesNo | src/com/memberclub/ui/validation/InputValidator.java:110-141 | yes exactly for "Ja" and no exactly for "Nej", ignoring case, after trim |
| InputValidation.YesAndNoDiffer | src/com/memberclub/ui/validation/InputValidator.java:120-124 | no line is both answers |
| InputValidation.GetYesNoConfirmation | src/com/memberclub/ui/validation/InputValidator.java:110-141 | the first reading YesNo accepts; the answer is yes exactly when that line says "Ja" |
| InputValidation.Password | src/com/memberclub/ui/validation/InputValidator.java:143-178 | the trimmed line, accepted exactly when it is at least minLength long |
| InputValidation.GetPassword | src/com/memberclub/ui/validation/InputValidator.java:143-178 | the first reading the length test accepts; its value is that line trimmed, at least minLength long |
| InputValidation.ConfirmPassword | src/com/memberclub/ui/validation/InputValidator.java:180-192 | true exactly when the trimmed line equals the original password; InputValidation.ConfirmPasswordOfReading states that retyping the same line confirms |
| InputValidation.ConfirmPasswordOfReading | src/com/memberclub/ui/validation/InputValidator.java:180-197 | typing the same line again confirms the password, and a confirmation has at least minLength characters |
| InputValidation.IndexOf | src/com/memberclub/ui/validation/InputValidator.java:207 | the first position of the character, or −1 when it is absent |
| InputValidation.LastIndexOf | src/com/memberclub/ui/validation/InputValidator.java:207 | the last position of the character, or −1 when it is absent |
| InputValidation.IsValidEmail | src/com/memberclub/ui/validation/InputValidator.java:199-208 | isValidEmail; InputValidation.ValidEmailCharacterised states it as "not blank and some '@' before some '.'" |
| InputValidation.ValidEmailCharacterised | src/com/memberclub/ui/validation/InputValidator.java:199-214 | an address is valid exactly when it is not blank and some '@' comes before some '.' |
| InputValidation.Email | src/com/memberclub/ui/validation/InputValidator.java:216-258 | the trimmed line, accepted exactly when it is a valid address |
| InputValidation.GetValidEmail | src/com/memberclub/ui/validation/InputValidator.java:216-258 | the first reading Email accepts; its value is that line trimmed and a valid address |
| InputValidation.PhonePattern | src/com/memberclub/ui/validation/InputValidator.java:283 | the pattern `^[0-9\s\-+()]+$`: non-empty, and every character a digit, a Java `\s` character, '-', '+', '(' or ')' |
| InputValidation.Phone | src/com/memberclub/ui/validation/InputValidator.java:260-296 | the trimmed line, accepted exactly when it is non-empty and made of digits, blanks, '-', '+', '(' and ')' |
| InputValidation.GetValidPhone | src/com/memberclub/ui/validation/InputValidator.java:260-296 | the first reading Phone accepts; its value is that line trimmed and matches the phone pattern |

## Left out

- Console output, screens and menus are not modelled: printing, `selectCategory`, `returnSingleItem`, the receipt layout and the menu loops. Each decision they make is modelled; the text they print is not.
- Doubles are modelled as exact reals. IEEE rounding of prices and fees is not modelled.
- `java.time` is modelled as day numbers and (day, hour, minute) triples, and the clock as a parameter.
- The price policy for STUDENT members and `PricingFactory` are not part of this model. `RentalService` takes the student policy as a function value.
- Item subclasses and their extra fields (tent type, fuel type, ...) become the kind tag `ItemKind`. Nothing in the core reads those fields.
- `Rental.getDurationInDays` is not part of the core and is not modelled.
- HashMap iteration order is left open. `GetAllItems`, `GetAllMembers` and `SearchMemberByName` return the stored entries in some order.
- `RentalService.GetAllRentals` hands out the list itself. The model returns the sequence value, so callers cannot change the service's list through it.
- Integer overflow of the rental counter past 2147483647 is not modelled; the counter is a `nat`. The member id counter does model the wrap-around.
- Scanner exhaustion: a read-until-valid loop that runs out of input lines yields `None`; the source would block or throw.
- Yes/No confirmations in `checkout` and the return screens are boolean parameters. The per-item period and duration answers of `addMultipleItems` are a sequence of pairs.
- The bulk receipt's items are item ids, not the formatted "name [id] (type)" line.
- RentalServiceModel.RentalService.ReturnItem: requires that the found rental's item is still in the inventory (`Ledger.ReturnReady`), because the source dereferences a null item otherwise.
- ReturnHandling.ProcessReturn: requires a positive discounted daily rate (`Chargeable`); division by a zero rate gives an infinite or NaN double in the source, which the model does not represent. The same holds for ReturnHandling.ProcessReturnBulk and Receipts.LateFee.
- ReturnHandling.GroupMembers: requires every rental's member to be registered; the source would list a null member and fail when printing it.
- Text.ToLower: lower-cases only A–Z and the Latin-1 capitals À–Þ (other than ×), one character for one. Java's `toLowerCase` maps all of Unicode under the default locale, can change the length (U+0130 becomes two characters) and differs in a Turkish locale; so `Membership.Matching` and `EqualsIgnoreCase` differ from the source on names outside Latin-1, such as Greek or Cyrillic names. A full Unicode case table is out of scope.
- Text.ParseInt: accepts only the ASCII digits 0–9. `Integer.parseInt` also accepts every other Unicode decimal digit (such as Arabic-Indic '١'), so the model rejects selections and numbers written in those digits, which the source accepts.
- ItemIds.ItemIdGenerator: the twelve item id counters are `nat`s, so the wrap-around of the Java `int` counters past 2147483647 is not modelled; ids stay distinct for ever in the model.
- Selection.Selected: its own contract gives only the length bound; the selection rules are stated by Selection.Choice, Selection.SelectedAppend, Selection.DuplicateKept and Selection.InvalidDropped.
- ClubSystemModel.LoadSampleData: the seed data of `SampleDataLoader.loadSampleItems` and `loadSampleMembers` is reduced to one item and one member; the loader's item and member lists are not part of this model.

## Findings

| source | as written | input that shows it | evidently intended | confidence | as-written member | corrected member |
|---|---|---|---|---|---|---|
| src/com/memberclub/service/RentalService.java:104-128 | `returnItem` completes the first rental with the id whatever its status and makes its item AVAILABLE | rent TENT-001 (RENT-001), return it, rent it again (RENT-002), then return RENT-001 again: the call succeeds and the tent becomes AVAILABLE while RENT-002 is ACTIVE, so it can be rented twice | only an ACTIVE rental can be returned, which keeps "RENTED ⇔ exactly one ACTIVE rental" | not executed; proved on the model | Ledger.ReReturnFreesRentedItem | Ledger.GuardedReturnPreservesConsistency |
| src/com/memberclub/ui/components/ReturnHandler.java:162-175 | a number typed twice in the comma list returns the same rental twice, and both returns succeed | "1,1" for an overdue rental: success count 2 and the late fee added to the total twice | a rental is returned and charged at most once | not executed; proved on the model | ReturnHandling.DuplicateChargedTwice | ReturnHandling.GuardedDuplicateChargedOnce |

The corrected behaviour is available to the rest of the model:

- `RentalServiceModel.RentalService.ReturnActiveItem` is the guarded return on the objects.
- `ReturnHandling.BulkReturn` takes a `guarded` flag.

The handlers themselves are modelled as written.
