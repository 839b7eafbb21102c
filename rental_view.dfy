/**
 * RentalView's decisions: the undiscounted price of a cart line, the two ways lines are built
 * from a multi-selection, checkout (one rentItem per line, revenue credited once with the
 * discounted cart total) and the open/closed split of the rental list.
 */
module RentalViewModel {
  import opened Wrappers
  import opened Domain
  import opened Text
  import opened ItemModel
  import opened MemberModel
  import opened RentalModel
  import opened Pricing
  import opened Ledger
  import opened Revenue
  import opened Receipts
  import opened Cart
  import opened RentalServiceModel

  /** A cart line's price: the hourly or daily rate times the duration, before any discount. */
  function BasePrice(item: ItemData, duration: int, period: RentalPeriod): real
  {
    if period == Hourly then item.pricePerHour * duration as real else item.pricePerDay * duration as real
  }

  /**
   * The line price is what standard pricing charges, for any member, and premium pricing
   * charges 70% of it: the cart itself never discounts.
   */
  lemma BasePriceIsStandardPrice(item: ItemData, member: MemberData, duration: int, period: RentalPeriod)
    ensures BasePrice(item, duration, period) == StandardPrice(item, member, duration, period)
    ensures PremiumPrice(item, member, duration, period) == BasePrice(item, duration, period) * PremiumFactor
  {
  }

  /** "Same period" mode: every selected item gets the same period and duration, in selection order. */
  method LinesSamePeriod(selectedItems: seq<Item>, period: RentalPeriod, duration: int)
    returns (items: seq<CartItem>)
    ensures |items| == |selectedItems|
    ensures forall i :: 0 <= i < |items| ==>
              items[i] == CartItem(selectedItems[i], duration, period, BasePrice(selectedItems[i].Data(), duration, period))
  {
    items := [];
    var i := 0;
    while i < |selectedItems|
      invariant 0 <= i <= |selectedItems| && |items| == i
      invariant forall j :: 0 <= j < i ==>
                  items[j] == CartItem(selectedItems[j], duration, period, BasePrice(selectedItems[j].Data(), duration, period))
    {
      var selectedItem := selectedItems[i];
      var basePrice := if period == Hourly then selectedItem.pricePerHour * duration as real
                       else selectedItem.pricePerDay * duration as real;
      items := items + [CartItem(selectedItem, duration, period, basePrice)];
      i := i + 1;
    }
  }

  /** Per-item mode: item i gets the i-th (period, duration) answer, one line per item, in order. */
  method LinesPerItem(selectedItems: seq<Item>, answers: seq<(RentalPeriod, int)>)
    returns (items: seq<CartItem>)
    requires |answers| == |selectedItems|
    ensures |items| == |selectedItems|
    ensures forall i :: 0 <= i < |items| ==>
              items[i] == CartItem(selectedItems[i], answers[i].1, answers[i].0,
                                   BasePrice(selectedItems[i].Data(), answers[i].1, answers[i].0))
  {
    items := [];
    var i := 0;
    while i < |selectedItems|
      invariant 0 <= i <= |selectedItems| && |items| == i
      invariant forall j :: 0 <= j < i ==>
                  items[j] == CartItem(selectedItems[j], answers[j].1, answers[j].0,
                                       BasePrice(selectedItems[j].Data(), answers[j].1, answers[j].0))
    {
      var selectedItem := selectedItems[i];
      var (period, duration) := answers[i];
      var basePrice := if period == Hourly then selectedItem.pricePerHour * duration as real
                       else selectedItem.pricePerDay * duration as real;
      items := items + [CartItem(selectedItem, duration, period, basePrice)];
      i := i + 1;
    }
  }

  // ---------------------------------------------------------------- checkout

  datatype Outcome = Outcome(club: Club, created: seq<RentalData>)

  /** One cart line through rentItem: a refused line adds nothing. */
  function Step(prev: Outcome, student: PriceFn, memberId: Int32, line: CartItem, today: int): Outcome
  {
    var res := Rent(prev.club, student, memberId, line.item.id, line.duration, line.period, today);
    Outcome(res.club, prev.created + (if res.rental.Some? then [res.rental.value] else []))
  }

  /** rentItem once per cart line, in cart order; a refused line does not stop the run. */
  function RentAll(c: Club, student: PriceFn, memberId: Int32, lines: seq<CartItem>, today: int): (o: Outcome)
    ensures |o.created| <= |lines|
  {
    if |lines| == 0 then Outcome(c, [])
    else Step(RentAll(c, student, memberId, lines[..|lines| - 1], today), student, memberId, lines[|lines| - 1], today)
  }

  /** Running one more line is one more Step. */
  lemma RentAllSnoc(c: Club, student: PriceFn, memberId: Int32, lines: seq<CartItem>, i: nat, today: int)
    requires i < |lines|
    ensures RentAll(c, student, memberId, lines[..i + 1], today)
            == Step(RentAll(c, student, memberId, lines[..i], today), student, memberId, lines[i], today)
  {
    assert lines[..i + 1][..i] == lines[..i];
  }

  /** The ledger's rental list grows by exactly the created rentals, in order. */
  lemma {:induction false} RentAllAppends(c: Club, student: PriceFn, memberId: Int32, lines: seq<CartItem>, today: int)
    ensures var o := RentAll(c, student, memberId, lines, today); o.club.rentals == c.rentals + o.created
  {
    if |lines| > 0 {
      RentAllAppends(c, student, memberId, lines[..|lines| - 1], today);
    }
  }

  /** Revenue after checkout: the discounted cart total, credited once when anything was rented. */
  function CheckoutRevenue(total: real, lines: seq<CartItem>, level: MembershipLevel, createdAny: bool): real
  {
    if createdAny then Credited(total, TotalAfterDiscount(Total(lines), level)) else total
  }

  /** checkout's loop: rentItem for each line in cart order, keeping the rentals that were created. */
  method RentLines(service: RentalService, memberId: Int32, lines: seq<CartItem>, today: int)
    returns (createdRentals: seq<Rental>)
    requires service.Valid()
    modifies service, service.inventory.items.Values, service.memberRegistry.members.Values
    ensures service.Valid()
    ensures var o := RentAll(old(service.club), service.studentPricing, memberId, lines, today);
      service.club == o.club && |createdRentals| == |o.created|
      && forall i :: 0 <= i < |o.created| ==> createdRentals[i].Data() == o.created[i]
  {
    ghost var c0 := service.club;
    ghost var r0 := service.rentals;
    assert |r0| == |c0.rentals|;
    createdRentals := [];
    var i := 0;
    while i < |lines|
      invariant 0 <= i <= |lines|
      invariant service.Valid()
      invariant service.inventory.items == old(service.inventory.items)
      invariant service.memberRegistry.members == old(service.memberRegistry.members)
      invariant service.rentals == r0 + createdRentals
      invariant var o := RentAll(c0, service.studentPricing, memberId, lines[..i], today);
        service.club == o.club && |createdRentals| == |o.created|
    {
      RentAllSnoc(c0, service.studentPricing, memberId, lines, i, today);
      createdRentals := RentLine(service, memberId, lines[i], today, createdRentals,
                                 RentAll(c0, service.studentPricing, memberId, lines[..i], today), r0);
      i := i + 1;
    }
    assert lines[..i] == lines;
    RentAllAppends(c0, service.studentPricing, memberId, lines, today);
    CreatedMirror(service, r0, createdRentals, c0, RentAll(c0, service.studentPricing, memberId, lines, today));
  }

  /** One pass of checkout's loop: rentItem for the line, and the rental kept when one is created. */
  method RentLine(service: RentalService, memberId: Int32, cartItem: CartItem, today: int,
                  createdRentals: seq<Rental>, ghost o: Outcome, ghost r0: seq<Rental>)
    returns (created: seq<Rental>)
    requires service.Valid() && service.rentals == r0 + createdRentals
    requires service.club == o.club && |createdRentals| == |o.created|
    modifies service, service.inventory.items.Values, service.memberRegistry.members.Values
    ensures service.Valid() && service.rentals == r0 + created
    ensures unchanged(service.inventory, service.memberRegistry)
    ensures var o' := Step(o, service.studentPricing, memberId, cartItem, today);
      service.club == o'.club && |created| == |o'.created|
  {
    var rental := service.RentItem(memberId, cartItem.item.id, cartItem.duration, cartItem.period, today);
    created := createdRentals;
    if rental.Some? {
      AppendAssoc(r0, createdRentals, rental.value);
      created := createdRentals + [rental.value];
    }
  }

  /**
   * checkout given the answer to the confirmation: declining rents nothing and credits nothing;
   * confirming runs rentItem over the lines and credits the discounted total of the WHOLE cart
   * once if at least one rental was created, even when other lines were refused.
   */
  method Checkout(service: RentalService, revenueService: RevenueService, cart: ShoppingCart,
                  member: Member, confirmed: bool, today: int)
    returns (createdRentals: seq<Rental>)
    requires service.Valid() && revenueService.Valid()
    modifies service, service.inventory.items.Values, service.memberRegistry.members.Values, revenueService
    ensures service.Valid() && revenueService.Valid()
    ensures !confirmed ==> createdRentals == [] && service.club == old(service.club)
                           && revenueService.totalRevenue == old(revenueService.totalRevenue)
    ensures confirmed ==>
      var o := RentAll(old(service.club), service.studentPricing, member.id, old(cart.items), today);
      service.club == o.club
      && |createdRentals| == |o.created| && (forall i :: 0 <= i < |o.created| ==> createdRentals[i].Data() == o.created[i])
      && revenueService.totalRevenue
         == CheckoutRevenue(old(revenueService.totalRevenue), old(cart.items), old(member.level), |o.created| > 0)
  {
    var totalBeforeDiscount := cart.GetTotalBeforeDiscount();
    var discount := Discount(member.level);
    var discountAmount := totalBeforeDiscount * discount;
    var totalAfterDiscount := totalBeforeDiscount - discountAmount;
    ghost var revenue0 := revenueService.totalRevenue;
    ghost var credit := CheckoutRevenue(revenue0, cart.items, member.level, true);
    assert credit == Credited(revenue0, totalAfterDiscount);
    if !confirmed {
      return [];
    }
    var lines := cart.GetItems();
    createdRentals := RentLines(service, member.id, lines, today);
    if |createdRentals| > 0 {
      Credit(revenueService, totalAfterDiscount, service, createdRentals);
    }
  }

  /** addRevenue: it changes the revenue total and leaves the rental service and every rental as they were. */
  method Credit(revenueService: RevenueService, amount: real, ghost service: RentalService, ghost rs: seq<Rental>)
    requires revenueService.Valid() && service.Valid()
    modifies revenueService
    ensures revenueService.Valid() && revenueService.totalRevenue == Credited(old(revenueService.totalRevenue), amount)
    ensures service.Valid() && service.club == old(service.club)
    ensures forall i :: 0 <= i < |rs| ==> rs[i].Data() == old(rs[i].Data())
  {
    revenueService.AddRevenue(amount);
  }

  lemma AppendAssoc<T>(a: seq<T>, b: seq<T>, x: T)
    ensures a + (b + [x]) == (a + b) + [x]
  {
  }

  /** The objects appended to the service's list are in the states the ledger appended. */
  lemma CreatedMirror(service: RentalService, r0: seq<Rental>, created: seq<Rental>, c0: Club, o: Outcome)
    requires service.Valid() && service.rentals == r0 + created && |r0| == |c0.rentals|
    requires service.club.rentals == c0.rentals + o.created && |created| == |o.created|
    ensures forall i :: 0 <= i < |o.created| ==> created[i].Data() == o.created[i]
  {
    forall i | 0 <= i < |o.created|
      ensures created[i].Data() == o.created[i]
    {
      assert service.rentals[|r0| + i] == created[i];
      assert service.club.rentals[|r0| + i] == o.created[i];
    }
  }

  // ---------------------------------------------------------------- what checkout credits

  /** The sum of the rentals' costs. */
  function SumCosts(rs: seq<RentalData>): real
  {
    if |rs| == 0 then 0.0 else SumCosts(rs[..|rs| - 1]) + rs[|rs| - 1].totalCost
  }

  /** Two ledgers agree on the item rates and the member tiers (renting changes neither). */
  predicate SameRates(a: Club, b: Club)
  {
    a.stock.Keys == b.stock.Keys
    && (forall k :: k in a.stock ==> a.stock[k].pricePerDay == b.stock[k].pricePerDay
                                     && a.stock[k].pricePerHour == b.stock[k].pricePerHour)
    && a.members.Keys == b.members.Keys
    && (forall m :: m in a.members ==> a.members[m].level == b.members[m].level)
  }

  /** A run of rentals leaves every rate and tier as it was. */
  lemma {:induction false} RentAllKeepsRates(c: Club, student: PriceFn, memberId: Int32, lines: seq<CartItem>, today: int)
    ensures SameRates(c, RentAll(c, student, memberId, lines, today).club)
  {
    if |lines| > 0 {
      RentAllKeepsRates(c, student, memberId, lines[..|lines| - 1], today);
    }
  }

  /** The lines are priced at their items' current base price in the ledger. */
  predicate PricedFrom(c: Club, lines: seq<CartItem>)
  {
    forall i :: 0 <= i < |lines| ==>
      lines[i].item.id in c.stock
      && lines[i].price == BasePrice(c.stock[lines[i].item.id], lines[i].duration, lines[i].period)
  }

  /** The tier's share of an amount, written per tier so that it stays linear. */
  function Share(t: real, level: MembershipLevel): real
  {
    match level
    case Standard => t
    case Student => t * 0.8
    case Premium => t * 0.7
  }

  /** The discounted total is the tier's share of the total. */
  lemma DiscountShare(t: real, level: MembershipLevel)
    ensures TotalAfterDiscount(t, level) == Share(t, level)
    ensures Share(t, level) == t * (1.0 - Discount(level))
  {
  }

  /**
   * When every line of a cart priced from the ledger is rented by a STANDARD or PREMIUM member,
   * the sum of the new rentals' costs is exactly the discounted cart total that checkout credits.
   */
  lemma FullCheckoutCreditsCosts(c: Club, student: PriceFn, memberId: Int32, lines: seq<CartItem>, today: int)
    requires memberId in c.members && c.members[memberId].level != Student
    requires PricedFrom(c, lines)
    requires |RentAll(c, student, memberId, lines, today).created| == |lines|
    ensures SumCosts(RentAll(c, student, memberId, lines, today).created)
            == TotalAfterDiscount(Total(lines), c.members[memberId].level)
  {
    SumOfDiscountedLines(c, student, memberId, lines, today);
    DiscountShare(Total(lines), c.members[memberId].level);
  }

  lemma {:induction false} SumOfDiscountedLines(c: Club, student: PriceFn, memberId: Int32,
                                                lines: seq<CartItem>, today: int)
    requires memberId in c.members && c.members[memberId].level != Student
    requires PricedFrom(c, lines)
    requires |RentAll(c, student, memberId, lines, today).created| == |lines|
    ensures SumCosts(RentAll(c, student, memberId, lines, today).created) == Share(Total(lines), c.members[memberId].level)
  {
    if |lines| > 0 {
      var init := lines[..|lines| - 1];
      var line := lines[|lines| - 1];
      var prev := RentAll(c, student, memberId, init, today);
      var created := RentAll(c, student, memberId, lines, today).created;
      var res := Rent(prev.club, student, memberId, line.item.id, line.duration, line.period, today);
      assert created == prev.created + (if res.rental.Some? then [res.rental.value] else []);
      assert res.rental.Some?;
      assert created[..|created| - 1] == prev.created;
      assert PricedFrom(c, init) by {
        forall i | 0 <= i < |init|
          ensures init[i].item.id in c.stock
                  && init[i].price == BasePrice(c.stock[init[i].item.id], init[i].duration, init[i].period)
        {
          assert init[i] == lines[i];
        }
      }
      SumOfDiscountedLines(c, student, memberId, init, today);
      RentAllKeepsRates(c, student, memberId, init, today);
      LineCost(c, prev.club, student, memberId, line, today);
    }
  }

  /** A granted line in a ledger with the original rates costs its price times the tier's share. */
  lemma LineCost(c: Club, n: Club, student: PriceFn, memberId: Int32, line: CartItem, today: int)
    requires SameRates(c, n) && memberId in c.members && c.members[memberId].level != Student
    requires line.item.id in c.stock && line.price == BasePrice(c.stock[line.item.id], line.duration, line.period)
    requires Rent(n, student, memberId, line.item.id, line.duration, line.period, today).rental.Some?
    ensures Rent(n, student, memberId, line.item.id, line.duration, line.period, today).rental.value.totalCost
            == Share(line.price, c.members[memberId].level)
  {
  }

  // ---------------------------------------------------------------- the rental list views

  /** The rentals without an end date (viewMyRentals' "active" list, showRevenue's active count). */
  function OpenRentals(rs: seq<Rental>): (r: seq<Rental>)
    reads rs
    ensures |r| <= |rs|
    ensures forall i :: 0 <= i < |r| ==> r[i] in rs && r[i].endDate.None?
    ensures forall i :: 0 <= i < |rs| && rs[i].endDate.None? ==> rs[i] in r
  {
    if |rs| == 0 then []
    else OpenRentals(rs[..|rs| - 1]) + (if rs[|rs| - 1].endDate.None? then [rs[|rs| - 1]] else [])
  }

  /** The rentals with an end date. */
  function ClosedRentals(rs: seq<Rental>): (r: seq<Rental>)
    reads rs
    ensures |r| <= |rs|
    ensures forall i :: 0 <= i < |r| ==> r[i] in rs && r[i].endDate.Some?
    ensures forall i :: 0 <= i < |rs| && rs[i].endDate.Some? ==> rs[i] in r
  {
    if |rs| == 0 then []
    else ClosedRentals(rs[..|rs| - 1]) + (if rs[|rs| - 1].endDate.Some? then [rs[|rs| - 1]] else [])
  }

  /** Each rental is in exactly one of the two lists, so the counts add up to the total. */
  lemma {:induction false} PartitionCounts(rs: seq<Rental>)
    ensures |OpenRentals(rs)| + |ClosedRentals(rs)| == |rs|
  {
    if |rs| > 0 {
      PartitionCounts(rs[..|rs| - 1]);
    }
  }

  /** A CANCELLED rental keeps its null end date and so is listed as active. */
  lemma {:induction false} CancelledListedOpen(rs: seq<Rental>, k: nat)
    requires k < |rs| && rs[k].status == RentalStatus.Cancelled && rs[k].endDate.None?
    ensures rs[k] in OpenRentals(rs) && rs[k] !in ActiveRentals(rs)
    decreases |rs|
  {
    if k < |rs| - 1 {
      assert rs[..|rs| - 1][k] == rs[k];
      CancelledListedOpen(rs[..|rs| - 1], k);
    }
    ActiveNeverCancelled(rs, rs[k]);
  }

  lemma {:induction false} ActiveNeverCancelled(rs: seq<Rental>, x: Rental)
    requires x.status == RentalStatus.Cancelled
    ensures x !in ActiveRentals(rs)
  {
    if |rs| > 0 {
      ActiveNeverCancelled(rs[..|rs| - 1], x);
    }
  }

  /** Where the end date is unset exactly on the ACTIVE rentals, the open list is getActiveRentals. */
  lemma {:induction false} OpenIsActiveWhenTracked(rs: seq<Rental>)
    requires forall i :: 0 <= i < |rs| ==> (rs[i].endDate.None? <==> rs[i].status == RentalStatus.Active)
    ensures OpenRentals(rs) == ActiveRentals(rs)
  {
    if |rs| > 0 {
      OpenIsActiveWhenTracked(rs[..|rs| - 1]);
    }
  }

  /** In the ledger, a rental has no end date exactly when it is ACTIVE. */
  predicate EndDateTracksStatus(c: Club)
  {
    forall i :: 0 <= i < |c.rentals| ==> (c.rentals[i].endDate.None? <==> IsActive(c.rentals[i]))
  }

  /** rentItem and returnItem keep that link (nothing in the service cancels a rental). */
  lemma TransitionsTrackStatus(c: Club, student: PriceFn, memberId: Int32, itemId: string,
                               duration: int, period: RentalPeriod, today: int, rentalId: string)
    requires EndDateTracksStatus(c)
    ensures EndDateTracksStatus(Rent(c, student, memberId, itemId, duration, period, today).club)
    ensures ReturnReady(c, rentalId) ==> EndDateTracksStatus(Return(c, rentalId, today).club)
  {
  }

  /** viewMyRentals' partition, by end date. */
  method PartitionByEndDate(allRentals: seq<Rental>) returns (activeRentals: seq<Rental>, completedRentals: seq<Rental>)
    ensures activeRentals == OpenRentals(allRentals) && completedRentals == ClosedRentals(allRentals)
    ensures |activeRentals| + |completedRentals| == |allRentals|
  {
    activeRentals, completedRentals := [], [];
    var i := 0;
    while i < |allRentals|
      invariant 0 <= i <= |allRentals|
      invariant activeRentals == OpenRentals(allRentals[..i]) && completedRentals == ClosedRentals(allRentals[..i])
    {
      var rental := allRentals[i];
      assert allRentals[..i + 1][..i] == allRentals[..i];
      if rental.endDate.None? {
        activeRentals := activeRentals + [rental];
      } else {
        completedRentals := completedRentals + [rental];
      }
      i := i + 1;
    }
    assert allRentals[..i] == allRentals;
    PartitionCounts(allRentals);
  }
}
