/**
 * The rental ledger as a value: the state of the inventory, the member registry, the list of
 * rentals and the rental counter, with rentItem and returnItem as transitions on it.  The
 * RentalService class is proved to follow these transitions; the ledger's own rules are proved
 * here.
 */
module Ledger {
  import opened Wrappers
  import opened Domain
  import opened Text
  import opened ItemModel
  import opened MemberModel
  import opened RentalModel
  import opened Pricing

  datatype Club = Club(
    stock: map<string, ItemData>,
    members: map<Int32, MemberData>,
    rentals: seq<RentalData>,
    counter: nat)

  /** "RENT-" followed by the counter, zero-padded to three digits. */
  function RentalIdFor(n: nat): string
  {
    "RENT-" + Pad3(n)
  }

  /** Hourly rentals are due back the same day; daily rentals after `duration` days. */
  function ExpectedReturnDate(today: int, duration: int, period: RentalPeriod): int
  {
    if period == Hourly then today else today + duration
  }

  datatype RentResult = RentResult(club: Club, rental: Option<RentalData>)

  /** Why rentItem returns null: unknown member, unknown item, or an item that is not available. */
  predicate RentRefused(c: Club, memberId: Int32, itemId: string)
  {
    memberId !in c.members || itemId !in c.stock || !IsAvailable(c.stock[itemId])
  }

  /** rentItem on the ledger. */
  function Rent(c: Club, student: PriceFn, memberId: Int32, itemId: string, duration: int,
                period: RentalPeriod, today: int): RentResult
  {
    if RentRefused(c, memberId, itemId) then RentResult(c, None)
    else
      var item := c.stock[itemId];
      var member := c.members[memberId];
      var cost := PolicyPrice(student, item, member, duration, period);
      var r := RentalData(RentalIdFor(c.counter), memberId, itemId, today,
                          ExpectedReturnDate(today, duration, period), None, cost, Active);
      var club := Club(c.stock[itemId := item.(status := ItemStatus.Rented)],
                       c.members[memberId := member.(history := member.history + [r.rentalId])],
                       c.rentals + [r],
                       c.counter + 1);
      RentResult(club, Some(r))
  }

  /** A refused rental changes nothing at all; any other request is granted. */
  lemma RentRefusedChangesNothing(c: Club, student: PriceFn, memberId: Int32, itemId: string,
                                  duration: int, period: RentalPeriod, today: int)
    ensures var res := Rent(c, student, memberId, itemId, duration, period, today);
      (res.rental.None? <==> RentRefused(c, memberId, itemId))
      && (res.rental.None? ==> res.club == c)
  {
  }

  /**
   * A granted rental appends exactly one rental, ACTIVE, without an end date, starting today,
   * due by the period's rule, priced by the member's tier and numbered by the counter; the item
   * becomes RENTED, the id goes on the end of the member's history and the counter moves up.
   * Every other item, member and rental is as it was.
   */
  lemma RentGranted(c: Club, student: PriceFn, memberId: Int32, itemId: string,
                    duration: int, period: RentalPeriod, today: int)
    requires !RentRefused(c, memberId, itemId)
    ensures var res := Rent(c, student, memberId, itemId, duration, period, today);
      var n := res.club;
      res.rental.Some? && var r := res.rental.value;
      && |n.rentals| == |c.rentals| + 1 && n.rentals[..|c.rentals|] == c.rentals && n.rentals[|c.rentals|] == r
      && r.rentalId == RentalIdFor(c.counter) && r.memberId == memberId && r.itemId == itemId
      && IsActive(r) && r.endDate == None && r.startDate == today
      && r.expectedReturnDate == ExpectedReturnDate(today, duration, period)
      && r.totalCost == PolicyPrice(student, c.stock[itemId], c.members[memberId], duration, period)
      && n.counter == c.counter + 1
      && n.stock.Keys == c.stock.Keys && IsRented(n.stock[itemId])
      && n.stock[itemId] == c.stock[itemId].(status := ItemStatus.Rented)
      && (forall k :: k in c.stock && k != itemId ==> n.stock[k] == c.stock[k])
      && n.members.Keys == c.members.Keys
      && n.members[memberId] == c.members[memberId].(history := c.members[memberId].history + [r.rentalId])
      && (forall k :: k in c.members && k != memberId ==> n.members[k] == c.members[k])
  {
  }

  /** The granted branch of Rent, spelled out for a given new rental record. */
  lemma RentGrantedShape(c: Club, student: PriceFn, memberId: Int32, itemId: string,
                         duration: int, period: RentalPeriod, today: int, r: RentalData)
    requires !RentRefused(c, memberId, itemId)
    requires r == RentalData(RentalIdFor(c.counter), memberId, itemId, today,
                             ExpectedReturnDate(today, duration, period), None,
                             PolicyPrice(student, c.stock[itemId], c.members[memberId], duration, period), Active)
    ensures Rent(c, student, memberId, itemId, duration, period, today)
            == RentResult(Club(c.stock[itemId := c.stock[itemId].(status := ItemStatus.Rented)],
                               c.members[memberId := c.members[memberId].(history := c.members[memberId].history + [r.rentalId])],
                               c.rentals + [r], c.counter + 1),
                          Some(r))
  {
  }

  // ---------------------------------------------------------------- returnItem

  datatype ReturnResult = ReturnResult(club: Club, ok: bool)

  /**
   * returnItem dereferences the item of the rental it finds; the source fails with a null
   * pointer if that item has left the inventory, so the model asks that it be there.
   */
  predicate ReturnReady(c: Club, rentalId: string)
  {
    match FirstIndex(c.rentals, rentalId)
    case None => true
    case Some(k) => c.rentals[k].itemId in c.stock
  }

  /** returnItem as written: the first rental with the id is completed, whatever its status, and its item made AVAILABLE. */
  function Return(c: Club, rentalId: string, today: int): ReturnResult
    requires ReturnReady(c, rentalId)
  {
    match FirstIndex(c.rentals, rentalId)
    case None => ReturnResult(c, false)
    case Some(k) =>
      var r := c.rentals[k];
      ReturnResult(c.(rentals := c.rentals[k := AfterComplete(r, today)],
                      stock := c.stock[r.itemId := c.stock[r.itemId].(status := ItemStatus.Available)]),
                   true)
  }

  /** The accepting branch of Return, spelled out for the index of the first match. */
  lemma ReturnFoundShape(c: Club, rentalId: string, today: int, k: nat)
    requires FirstIndex(c.rentals, rentalId) == Some(k) && c.rentals[k].itemId in c.stock
    ensures var r := c.rentals[k];
      Return(c, rentalId, today)
      == ReturnResult(c.(rentals := c.rentals[k := AfterComplete(r, today)],
                         stock := c.stock[r.itemId := c.stock[r.itemId].(status := ItemStatus.Available)]),
                      true)
  {
  }

  /**
   * An unknown id changes nothing; a known id completes its first rental (end date today) and
   * frees that rental's item, and touches nothing else.
   */
  lemma ReturnEffect(c: Club, rentalId: string, today: int)
    requires ReturnReady(c, rentalId)
    ensures var res := Return(c, rentalId, today);
      (res.ok <==> exists i :: 0 <= i < |c.rentals| && c.rentals[i].rentalId == rentalId)
      && (!res.ok ==> res.club == c)
      && (res.ok ==>
            var k := FirstIndex(c.rentals, rentalId).value;
            var r := c.rentals[k];
            var n := res.club;
            && |n.rentals| == |c.rentals|
            && IsCompleted(n.rentals[k]) && n.rentals[k].endDate == Some(today) && SameTerms(n.rentals[k], r)
            && (forall i :: 0 <= i < |c.rentals| && i != k ==> n.rentals[i] == c.rentals[i])
            && IsAvailable(n.stock[r.itemId]) && n.stock.Keys == c.stock.Keys
            && (forall id :: id in c.stock && id != r.itemId ==> n.stock[id] == c.stock[id])
            && n.members == c.members && n.counter == c.counter)
  {
    var res := Return(c, rentalId, today);
    if !res.ok {
      assert FirstIndex(c.rentals, rentalId).None?;
    }
  }

  /** The corrected returnItem: only an ACTIVE rental can be returned. */
  function ReturnActive(c: Club, rentalId: string, today: int): ReturnResult
    requires ReturnReady(c, rentalId)
  {
    match FirstIndex(c.rentals, rentalId)
    case None => ReturnResult(c, false)
    case Some(k) => if IsActive(c.rentals[k]) then Return(c, rentalId, today) else ReturnResult(c, false)
  }

  // ---------------------------------------------------------------- the rented-iff-active invariant

  /** How many ACTIVE rentals reference the item. */
  function ActiveCount(rs: seq<RentalData>, itemId: string): nat
  {
    if |rs| == 0 then 0
    else ActiveCount(rs[..|rs| - 1], itemId)
         + (if rs[|rs| - 1].itemId == itemId && IsActive(rs[|rs| - 1]) then 1 else 0)
  }

  /** Every item in stock is RENTED exactly when one ACTIVE rental references it, and no item has two. */
  predicate Consistent(c: Club)
  {
    forall id :: id in c.stock ==> ActiveCount(c.rentals, id) == (if IsRented(c.stock[id]) then 1 else 0)
  }

  lemma {:induction false} ActiveCountAppend(rs: seq<RentalData>, r: RentalData, id: string)
    ensures ActiveCount(rs + [r], id)
         == ActiveCount(rs, id) + (if r.itemId == id && IsActive(r) then 1 else 0)
  {
    assert (rs + [r])[..|rs|] == rs;
  }

  /** Replacing one rental changes each item's count only through that rental. */
  lemma {:induction false} ActiveCountUpdate(rs: seq<RentalData>, k: nat, r: RentalData, id: string)
    requires k < |rs|
    ensures ActiveCount(rs[k := r], id)
         == ActiveCount(rs, id) - (if rs[k].itemId == id && IsActive(rs[k]) then 1 else 0)
                                + (if r.itemId == id && IsActive(r) then 1 else 0)
    decreases |rs|
  {
    var last := |rs| - 1;
    if k == last {
      assert rs[k := r][..last] == rs[..last];
    } else {
      assert rs[k := r][..last] == rs[..last][k := r];
      ActiveCountUpdate(rs[..last], k, r, id);
    }
  }

  /** A club with no rentals and no RENTED item satisfies the invariant. */
  lemma InitialConsistent(stock: map<string, ItemData>, members: map<Int32, MemberData>)
    requires forall id :: id in stock ==> !IsRented(stock[id])
    ensures Consistent(Club(stock, members, [], 1))
  {
  }

  /** rentItem keeps the invariant. */
  lemma RentPreservesConsistency(c: Club, student: PriceFn, memberId: Int32, itemId: string,
                                 duration: int, period: RentalPeriod, today: int)
    requires Consistent(c)
    ensures Consistent(Rent(c, student, memberId, itemId, duration, period, today).club)
  {
    var res := Rent(c, student, memberId, itemId, duration, period, today);
    if res.rental.Some? {
      var r := res.rental.value;
      forall id | id in res.club.stock
        ensures ActiveCount(res.club.rentals, id) == (if IsRented(res.club.stock[id]) then 1 else 0)
      {
        ActiveCountAppend(c.rentals, r, id);
      }
    }
  }

  /** returnItem keeps the invariant when the rental it finds is ACTIVE. */
  lemma ReturnOfActivePreservesConsistency(c: Club, rentalId: string, today: int)
    requires Consistent(c) && ReturnReady(c, rentalId)
    requires FirstIndex(c.rentals, rentalId).Some? ==> IsActive(c.rentals[FirstIndex(c.rentals, rentalId).value])
    ensures Consistent(Return(c, rentalId, today).club)
  {
    match FirstIndex(c.rentals, rentalId)
    case None =>
    case Some(k) =>
      var r := c.rentals[k];
      var n := Return(c, rentalId, today).club;
      forall id | id in n.stock
        ensures ActiveCount(n.rentals, id) == (if IsRented(n.stock[id]) then 1 else 0)
      {
        ActiveCountUpdate(c.rentals, k, AfterComplete(r, today), id);
      }
  }

  /** The corrected return keeps the invariant on every input. */
  lemma GuardedReturnPreservesConsistency(c: Club, rentalId: string, today: int)
    requires Consistent(c) && ReturnReady(c, rentalId)
    ensures Consistent(ReturnActive(c, rentalId, today).club)
    ensures ReturnActive(c, rentalId, today).ok ==> ReturnActive(c, rentalId, today) == Return(c, rentalId, today)
  {
    match FirstIndex(c.rentals, rentalId)
    case None =>
    case Some(k) =>
      if IsActive(c.rentals[k]) {
        ReturnOfActivePreservesConsistency(c, rentalId, today);
      }
  }

  // ---------------------------------------------------------------- the gap in returnItem

  const Tent1: ItemData := ItemData("TENT-001", Tent, "Tält", 150.0, 30.0, ItemStatus.Available)
  const Member1: MemberData := MemberData(1, "Anna", "anna@example.se", "070-1234567", Standard, [])

  /**
   * Rent the tent, return it, rent it again (RENT-002), then return RENT-001 a second time: the
   * re-return is accepted and makes the tent AVAILABLE while RENT-002 is still ACTIVE, so the
   * invariant that held before the call is broken and the tent can be rented twice.
   */
  lemma ReReturnFreesRentedItem(student: PriceFn)
    ensures var c0 := Club(map["TENT-001" := Tent1], map[1 := Member1], [], 1);
      var c1 := Rent(c0, student, 1, "TENT-001", 2, Daily, 100).club;
      ReturnReady(c1, "RENT-001") &&
      var c2 := Return(c1, "RENT-001", 101).club;
      var c3 := Rent(c2, student, 1, "TENT-001", 3, Daily, 102).club;
      ReturnReady(c3, "RENT-001") &&
      var last := Return(c3, "RENT-001", 103);
      Consistent(c0) && Consistent(c3) && last.ok
      && IsAvailable(last.club.stock["TENT-001"]) && ActiveCount(last.club.rentals, "TENT-001") == 1
      && !Consistent(last.club)
      && !RentRefused(last.club, 1, "TENT-001")
  {
    var c0 := Club(map["TENT-001" := Tent1], map[1 := Member1], [], 1);
    assert Pad3(1) == "001" by { assert Digits(1) == ['1']; }
    assert Pad3(2) == "002" by { assert Digits(2) == ['2']; }
    var r1 := Rent(c0, student, 1, "TENT-001", 2, Daily, 100);
    var c1 := r1.club;
    assert c1.rentals[0].rentalId == "RENT-001";
    assert FirstIndex(c1.rentals, "RENT-001") == Some(0);
    var c2 := Return(c1, "RENT-001", 101).club;
    var c3 := Rent(c2, student, 1, "TENT-001", 3, Daily, 102).club;
    assert c3.rentals[1].rentalId == "RENT-002";
    assert FirstIndex(c3.rentals, "RENT-001") == Some(0);
    var last := Return(c3, "RENT-001", 103);
    RentPreservesConsistency(c0, student, 1, "TENT-001", 2, Daily, 100);
    ReturnOfActivePreservesConsistency(c1, "RENT-001", 101);
    RentPreservesConsistency(c2, student, 1, "TENT-001", 3, Daily, 102);
    assert last.club.rentals[..1] == [last.club.rentals[0]];
    assert ActiveCount(last.club.rentals, "TENT-001") == 1;
  }

  /** The corrected return refuses the second return of RENT-001 and keeps the tent RENTED. */
  lemma GuardedReturnRefusesReReturn(student: PriceFn)
    ensures var c0 := Club(map["TENT-001" := Tent1], map[1 := Member1], [], 1);
      var c1 := Rent(c0, student, 1, "TENT-001", 2, Daily, 100).club;
      ReturnReady(c1, "RENT-001") &&
      var c2 := Return(c1, "RENT-001", 101).club;
      var c3 := Rent(c2, student, 1, "TENT-001", 3, Daily, 102).club;
      ReturnReady(c3, "RENT-001") &&
      var last := ReturnActive(c3, "RENT-001", 103);
      !last.ok && IsRented(last.club.stock["TENT-001"])
  {
    var c0 := Club(map["TENT-001" := Tent1], map[1 := Member1], [], 1);
    assert Pad3(1) == "001" by { assert Digits(1) == ['1']; }
    assert Pad3(2) == "002" by { assert Digits(2) == ['2']; }
    var c1 := Rent(c0, student, 1, "TENT-001", 2, Daily, 100).club;
    assert FirstIndex(c1.rentals, "RENT-001") == Some(0);
    var c2 := Return(c1, "RENT-001", 101).club;
    var c3 := Rent(c2, student, 1, "TENT-001", 3, Daily, 102).club;
    assert c3.rentals[1].rentalId == "RENT-002";
    assert FirstIndex(c3.rentals, "RENT-001") == Some(0);
  }

  // ---------------------------------------------------------------- numbering

  /** Rental i (from 0) carries the id for counter value i + 1, and the counter is one past the last. */
  predicate WellNumbered(c: Club)
  {
    Numbered(c.rentals, c.counter)
  }

  predicate Numbered(rs: seq<RentalData>, counter: nat)
  {
    counter == |rs| + 1 && forall i :: 0 <= i < |rs| ==> rs[i].rentalId == RentalIdFor(i + 1)
  }

  /** A rental numbered by the counter extends a numbered list. */
  lemma NumberedAppend(rs: seq<RentalData>, counter: nat, r: RentalData)
    requires Numbered(rs, counter) && r.rentalId == RentalIdFor(counter)
    ensures Numbered(rs + [r], counter + 1)
  {
  }

  /** Replacing a rental by one with the same id keeps the numbering. */
  lemma NumberedReplace(rs: seq<RentalData>, counter: nat, k: nat, r: RentalData)
    requires Numbered(rs, counter) && k < |rs| && r.rentalId == rs[k].rentalId
    ensures Numbered(rs[k := r], counter)
  {
  }

  lemma RentalIdInjective(m: nat, n: nat)
    requires RentalIdFor(m) == RentalIdFor(n)
    ensures m == n
  {
    assert Pad3(m) == RentalIdFor(m)[5..];
    assert Pad3(n) == RentalIdFor(n)[5..];
    Pad3Injective(m, n);
  }

  /** In a well-numbered ledger no two rentals share an id, so "the first match" is the only match. */
  lemma WellNumberedIdsDistinct(c: Club)
    requires WellNumbered(c)
    ensures forall i, j :: 0 <= i < j < |c.rentals| ==> c.rentals[i].rentalId != c.rentals[j].rentalId
  {
    forall i, j | 0 <= i < j < |c.rentals|
      ensures c.rentals[i].rentalId != c.rentals[j].rentalId
    {
      if c.rentals[i].rentalId == c.rentals[j].rentalId {
        RentalIdInjective(i + 1, j + 1);
      }
    }
  }

  /** Both transitions keep the numbering: a new rental takes the next id, a return changes no id. */
  lemma TransitionsKeepNumbering(c: Club, student: PriceFn, memberId: Int32, itemId: string,
                                 duration: int, period: RentalPeriod, today: int, rentalId: string)
    requires WellNumbered(c)
    ensures WellNumbered(Rent(c, student, memberId, itemId, duration, period, today).club)
    ensures ReturnReady(c, rentalId) ==> WellNumbered(Return(c, rentalId, today).club)
  {
    if !RentRefused(c, memberId, itemId) {
      NumberedAppend(c.rentals, c.counter, Rent(c, student, memberId, itemId, duration, period, today).rental.value);
    }
    if ReturnReady(c, rentalId) && FirstIndex(c.rentals, rentalId).Some? {
      var k := FirstIndex(c.rentals, rentalId).value;
      NumberedReplace(c.rentals, c.counter, k, AfterComplete(c.rentals[k], today));
    }
  }
}
