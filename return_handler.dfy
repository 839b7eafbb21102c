/**
 * ReturnHandler's decisions: the single return and its late fee, the bulk return that adds up
 * the fees of the returns that succeed and credits them once, the comma-list selection of
 * rentals, and the per-member grouping and filtering of "return everything".
 */
module ReturnHandling {
  import opened Wrappers
  import opened Domain
  import opened Text
  import opened ItemModel
  import opened MemberModel
  import opened RentalModel
  import opened InventoryModel
  import opened RegistryModel
  import opened Ledger
  import opened Revenue
  import opened Receipts
  import opened InputValidation
  import opened Selection
  import opened RentalServiceModel
  import opened RentalViewModel

  /**
   * The receipt can price the return of `r`: its item and its member are on file (the source
   * dereferences both) and the effective daily rate it divides by is positive.
   */
  predicate Chargeable(c: Club, r: RentalData)
  {
    r.itemId in c.stock && r.memberId in c.members
    && Rate(DailyPrices(c.stock)[r.itemId], c.members[r.memberId].level) > 0.0
  }

  /** The late fee the receipt computes for `r` returned today, from the ledger's item and member. */
  function Fee(c: Club, r: RentalData, today: int): (f: real)
    requires Chargeable(c, r)
    ensures f == LateFee(r, c.stock[r.itemId], c.members[r.memberId], today)
  {
    FeeAt(r.totalCost, r.startDate, DailyPrices(c.stock)[r.itemId], c.members[r.memberId].level, today)
  }

  /** A rental's fixed terms: everything but its end date and status. */
  function Fixed(r: RentalData): RentalData
  {
    r.(endDate := None, status := Active)
  }

  /** The fixed terms of each rental of the list. */
  function FixedTerms(rs: seq<RentalData>): (t: seq<RentalData>)
    ensures |t| == |rs| && forall i :: 0 <= i < |rs| ==> t[i] == Fixed(rs[i])
  {
    if |rs| == 0 then [] else FixedTerms(rs[..|rs| - 1]) + [Fixed(rs[|rs| - 1])]
  }

  /** The daily price of each item in stock. */
  function DailyPrices(stock: map<string, ItemData>): (p: map<string, real>)
    ensures p.Keys == stock.Keys && forall k :: k in stock ==> p[k] == stock[k].pricePerDay
  {
    map k | k in stock :: stock[k].pricePerDay
  }

  /**
   * `b` differs from `a` at most in item statuses, rental statuses and end dates, and the
   * counter: the daily prices, the members and every rental's fixed terms are the same.
   */
  predicate Unmoved(a: Club, b: Club)
  {
    DailyPrices(a.stock) == DailyPrices(b.stock) && a.members == b.members
    && FixedTerms(a.rentals) == FixedTerms(b.rentals)
  }

  /** returnItem, guarded or not, moves nothing that the fee or the next return looks at. */
  lemma ReturnUnmoved(c: Club, rentalId: string, today: int)
    requires ReturnReady(c, rentalId)
    ensures Unmoved(c, Return(c, rentalId, today).club)
    ensures Unmoved(c, ReturnActive(c, rentalId, today).club)
  {
    match FirstIndex(c.rentals, rentalId)
    case None =>
    case Some(k) =>
      var r := c.rentals[k];
      var n := Return(c, rentalId, today).club;
      assert FixedTerms(n.rentals) == FixedTerms(c.rentals) by {
        assert Fixed(AfterComplete(r, today)) == Fixed(r);
      }
      assert DailyPrices(n.stock) == DailyPrices(c.stock);
  }

  /** Two lists with the same ids position by position find the same first match. */
  lemma {:induction false} FirstIndexByIds(a: seq<RentalData>, b: seq<RentalData>, id: string)
    requires |a| == |b| && forall i :: 0 <= i < |a| ==> a[i].rentalId == b[i].rentalId
    ensures FirstIndex(a, id) == FirstIndex(b, id)
  {
    if |a| > 0 && a[0].rentalId != id {
      FirstIndexByIds(a[1..], b[1..], id);
    }
  }

  /** Rentals with the same fixed terms have the same ids and items, position by position. */
  lemma FixedTermsAgree(a: seq<RentalData>, b: seq<RentalData>)
    requires FixedTerms(a) == FixedTerms(b)
    ensures |a| == |b|
    ensures forall i :: 0 <= i < |a| ==> a[i].rentalId == b[i].rentalId && a[i].itemId == b[i].itemId
  {
    assert |a| == |FixedTerms(b)|;
    forall i | 0 <= i < |a|
      ensures a[i].rentalId == b[i].rentalId && a[i].itemId == b[i].itemId
    {
      assert FixedTerms(a)[i] == FixedTerms(b)[i];
    }
  }

  /** In an unmoved ledger the same rental is found, it is still ready to return, and it costs the same. */
  lemma UnmovedKeeps(a: Club, b: Club, r: RentalData, today: int)
    requires Unmoved(a, b)
    ensures FirstIndex(a.rentals, r.rentalId) == FirstIndex(b.rentals, r.rentalId)
    ensures ReturnReady(a, r.rentalId) ==> ReturnReady(b, r.rentalId)
    ensures Chargeable(a, r) ==> Chargeable(b, r) && Fee(a, r, today) == Fee(b, r, today)
  {
    FixedTermsAgree(a.rentals, b.rentals);
    FirstIndexByIds(a.rentals, b.rentals, r.rentalId);
    assert a.stock.Keys == DailyPrices(a.stock).Keys == b.stock.Keys;
  }

  // ---------------------------------------------------------------- processReturnBulk

  /** The running state of processReturnBulk: the ledger, the fee total, the success count and the receipt's items. */
  datatype Bulk = Bulk(club: Club, totalLateFees: real, successCount: nat, returned: seq<string>)

  /** Every rental in the list can be returned and priced. */
  predicate AllReady(c: Club, rs: seq<RentalData>)
  {
    forall k :: 0 <= k < |rs| ==> ReturnReady(c, rs[k].rentalId) && Chargeable(c, rs[k])
  }

  /**
   * One rental of the list: returnItem (the corrected, ACTIVE-only one when `guarded`); when it
   * succeeds, one more success, the item on the receipt, and the fee added if it is positive.
   * The fee is read from the ledger as it stood before this return; a return changes no rate.
   */
  function BulkStep(b: Bulk, c0: Club, r: RentalData, today: int, guarded: bool): (n: Bulk)
    requires Unmoved(c0, b.club) && ReturnReady(c0, r.rentalId) && Chargeable(c0, r)
    ensures Unmoved(c0, n.club)
  {
    UnmovedKeeps(c0, b.club, r, today);
    ReturnUnmoved(b.club, r.rentalId, today);
    var res := if guarded then ReturnActive(b.club, r.rentalId, today) else Return(b.club, r.rentalId, today);
    Bulk(res.club, AddFee(b.totalLateFees, res.ok, Fee(b.club, r, today)),
         if res.ok then b.successCount + 1 else b.successCount,
         if res.ok then b.returned + [r.itemId] else b.returned)
  }

  /** The fee total after one return: the fee is added when the return succeeded and the fee is positive. */
  function AddFee(total: real, returned: bool, lateFee: real): real
  {
    if returned && lateFee > 0.0 then total + lateFee else total
  }

  /** processReturnBulk over the first `n` rentals of the list, in order; a failed return does not stop the run. */
  function BulkPrefix(c0: Club, rs: seq<RentalData>, n: nat, today: int, guarded: bool): (b: Bulk)
    requires AllReady(c0, rs) && n <= |rs|
    ensures Unmoved(c0, b.club)
    ensures b.successCount == |b.returned| <= n
  {
    if n == 0 then Bulk(c0, 0.0, 0, [])
    else BulkStep(BulkPrefix(c0, rs, n - 1, today, guarded), c0, rs[n - 1], today, guarded)
  }

  /** processReturnBulk over the whole list. */
  function BulkReturn(c0: Club, rs: seq<RentalData>, today: int, guarded: bool): (b: Bulk)
    requires AllReady(c0, rs)
    ensures Unmoved(c0, b.club)
    ensures b.successCount == |b.returned| <= |rs|
  {
    BulkPrefix(c0, rs, |rs|, today, guarded)
  }

  /** BulkStep field by field; the fee is the same whether read before the run or before the step. */
  lemma BulkStepEffect(b: Bulk, c0: Club, r: RentalData, today: int, guarded: bool)
    requires Unmoved(c0, b.club) && ReturnReady(c0, r.rentalId) && Chargeable(c0, r)
    ensures ReturnReady(b.club, r.rentalId) && Chargeable(b.club, r) && Fee(b.club, r, today) == Fee(c0, r, today)
    ensures var res := if guarded then ReturnActive(b.club, r.rentalId, today) else Return(b.club, r.rentalId, today);
      var lateFee := Fee(b.club, r, today);
      var n := BulkStep(b, c0, r, today, guarded);
      && n.club == res.club
      && n.totalLateFees == AddFee(b.totalLateFees, res.ok, lateFee)
      && n.successCount == (if res.ok then b.successCount + 1 else b.successCount)
      && n.returned == (if res.ok then b.returned + [r.itemId] else b.returned)
  {
    UnmovedKeeps(c0, b.club, r, today);
  }

  /** The fee total only ever adds positive fees of successful returns, so it is never negative. */
  lemma {:induction false} BulkFeesNonNegative(c0: Club, rs: seq<RentalData>, n: nat, today: int, guarded: bool)
    requires AllReady(c0, rs) && n <= |rs|
    ensures FeesSound(BulkPrefix(c0, rs, n, today, guarded))
  {
    if n > 0 {
      BulkFeesNonNegative(c0, rs, n - 1, today, guarded);
      BulkStepFees(BulkPrefix(c0, rs, n - 1, today, guarded), c0, rs[n - 1], today, guarded);
    }
  }

  /** The fee total is non-negative, and positive only once something was returned. */
  predicate FeesSound(b: Bulk)
  {
    b.totalLateFees >= 0.0 && (b.totalLateFees > 0.0 ==> b.successCount > 0)
  }

  /** One step keeps FeesSound. */
  lemma BulkStepFees(b: Bulk, c0: Club, r: RentalData, today: int, guarded: bool)
    requires Unmoved(c0, b.club) && ReturnReady(c0, r.rentalId) && Chargeable(c0, r) && FeesSound(b)
    ensures FeesSound(BulkStep(b, c0, r, today, guarded))
  {
  }

  /** A rental id the ledger does not know changes nothing: no success, no fee, no receipt line. */
  lemma UnknownSkipped(c0: Club, rs: seq<RentalData>, n: nat, today: int, guarded: bool)
    requires AllReady(c0, rs) && n < |rs| && FirstIndex(c0.rentals, rs[n].rentalId).None?
    ensures BulkPrefix(c0, rs, n + 1, today, guarded) == BulkPrefix(c0, rs, n, today, guarded)
  {
    var b := BulkPrefix(c0, rs, n, today, guarded);
    UnmovedKeeps(c0, b.club, rs[n], today);
  }

  /**
   * A rental selected twice is returned twice, because returnItem has no ACTIVE guard: both
   * returns succeed and a positive late fee is charged twice.
   */
  lemma DuplicateChargedTwice(c: Club, r: RentalData, today: int)
    requires ReturnReady(c, r.rentalId) && Chargeable(c, r) && FirstIndex(c.rentals, r.rentalId).Some?
    ensures AllReady(c, [r, r])
    ensures var b := BulkReturn(c, [r, r], today, false);
      b.successCount == 2 && b.returned == [r.itemId, r.itemId]
      && b.totalLateFees == (if Fee(c, r, today) > 0.0 then 2.0 * Fee(c, r, today) else 0.0)
  {
    assert AllReady(c, [r, r]);
    TwoKnownReturns(c, [r, r], today);
  }

  /** Without the guard, two rentals the ledger knows are both returned, and both fees are added. */
  lemma TwoKnownReturns(c0: Club, rs: seq<RentalData>, today: int)
    requires AllReady(c0, rs) && |rs| == 2
    requires FirstIndex(c0.rentals, rs[0].rentalId).Some? && FirstIndex(c0.rentals, rs[1].rentalId).Some?
    ensures var b := BulkReturn(c0, rs, today, false);
      && b.successCount == 2 && b.returned == [rs[0].itemId, rs[1].itemId]
      && b.totalLateFees == AddFee(AddFee(0.0, true, Fee(c0, rs[0], today)), true, Fee(c0, rs[1], today))
  {
    KnownStep(c0, rs, 0, today);
    KnownStep(c0, rs, 1, today);
  }

  /** Without the guard, a rental the ledger knows is returned: one more success, its item, its fee. */
  lemma KnownStep(c0: Club, rs: seq<RentalData>, n: nat, today: int)
    requires AllReady(c0, rs) && n < |rs| && FirstIndex(c0.rentals, rs[n].rentalId).Some?
    ensures var b := BulkPrefix(c0, rs, n, today, false);
      var b' := BulkPrefix(c0, rs, n + 1, today, false);
      && b'.totalLateFees == AddFee(b.totalLateFees, true, Fee(c0, rs[n], today))
      && b'.successCount == b.successCount + 1
      && b'.returned == b.returned + [rs[n].itemId]
  {
    KnownReturnsSucceed(c0, rs, n, today);
    BulkPrefixStep(c0, rs, n, today, false);
  }

  /** One more rental of the list, field by field, with the fee read from the ledger before the run. */
  lemma BulkPrefixStep(c0: Club, rs: seq<RentalData>, n: nat, today: int, guarded: bool)
    requires AllReady(c0, rs) && n < |rs|
    ensures ReturnReady(BulkPrefix(c0, rs, n, today, guarded).club, rs[n].rentalId)
    ensures var b := BulkPrefix(c0, rs, n, today, guarded);
      var b' := BulkPrefix(c0, rs, n + 1, today, guarded);
      var ok := (if guarded then ReturnActive(b.club, rs[n].rentalId, today) else Return(b.club, rs[n].rentalId, today)).ok;
      && b'.totalLateFees == AddFee(b.totalLateFees, ok, Fee(c0, rs[n], today))
      && b'.successCount == (if ok then b.successCount + 1 else b.successCount)
      && b'.returned == (if ok then b.returned + [rs[n].itemId] else b.returned)
  {
    BulkStepEffect(BulkPrefix(c0, rs, n, today, guarded), c0, rs[n], today, guarded);
  }

  /** Without the guard, every rental of the list that the ledger knows is returned successfully. */
  lemma KnownReturnsSucceed(c0: Club, rs: seq<RentalData>, n: nat, today: int)
    requires AllReady(c0, rs) && n < |rs| && FirstIndex(c0.rentals, rs[n].rentalId).Some?
    ensures ReturnReady(BulkPrefix(c0, rs, n, today, false).club, rs[n].rentalId)
    ensures Return(BulkPrefix(c0, rs, n, today, false).club, rs[n].rentalId, today).ok
  {
    var b := BulkPrefix(c0, rs, n, today, false);
    UnmovedKeeps(c0, b.club, rs[n], today);
    KnownReturnSucceeds(b.club, rs[n].rentalId, today);
  }

  /** returnItem without the guard succeeds for every id the ledger knows. */
  lemma KnownReturnSucceeds(c: Club, rentalId: string, today: int)
    requires ReturnReady(c, rentalId) && FirstIndex(c.rentals, rentalId).Some?
    ensures Return(c, rentalId, today).ok
  {
  }

  /** With the corrected returnItem the second return of the same rental is refused: one charge at most. */
  lemma GuardedDuplicateChargedOnce(c: Club, r: RentalData, today: int)
    requires ReturnReady(c, r.rentalId) && Chargeable(c, r) && FirstIndex(c.rentals, r.rentalId).Some?
    ensures AllReady(c, [r, r])
    ensures var b := BulkReturn(c, [r, r], today, true);
      var k := FirstIndex(c.rentals, r.rentalId).value;
      b.successCount == (if IsActive(c.rentals[k]) then 1 else 0)
      && b.totalLateFees == (if IsActive(c.rentals[k]) && Fee(c, r, today) > 0.0 then Fee(c, r, today) else 0.0)
  {
    assert AllReady(c, [r, r]);
    var k := FirstIndex(c.rentals, r.rentalId).value;
    var b0 := BulkPrefix(c, [r, r], 0, today, true);
    BulkStepEffect(b0, c, r, today, true);
    var b1 := BulkPrefix(c, [r, r], 1, today, true);
    UnmovedKeeps(c, b1.club, r, today);
    if IsActive(c.rentals[k]) {
      ReturnFoundShape(c, r.rentalId, today, k);
      assert !IsActive(b1.club.rentals[k]);
    }
    BulkStepEffect(b1, c, r, today, true);
  }

  /** `r` holds the fixed terms of the rental object `x`: its id, member, item, dates and cost. */
  predicate Describes(r: RentalData, x: Rental)
  {
    r.rentalId == x.rentalId && r.memberId == x.memberId && r.itemId == x.itemId
    && r.startDate == x.startDate && r.expectedReturnDate == x.expectedReturnDate && r.totalCost == x.totalCost
  }

  /** The fee depends only on the rental's terms, the item's daily price and the member's tier. */
  lemma FeeFromTerms(c: Club, r: RentalData, r': RentalData, item: ItemData, member: MemberData, today: int)
    requires Chargeable(c, r) && SameTerms(r, r')
    requires item.pricePerDay == DailyPrices(c.stock)[r.itemId] && member.level == c.members[r.memberId].level
    ensures EffectiveDailyRate(item, member) > 0.0 && LateFee(r', item, member, today) == Fee(c, r, today)
  {
  }

  /**
   * One rental of processReturnBulk on the objects: look up its item and member, return it, and
   * on success price the return from the item and member as they are afterwards.
   */
  method ReturnOne(service: RentalService, rental: Rental, today: int, ghost r: RentalData)
    returns (returned: bool, lateFee: real)
    requires service.Valid() && Describes(r, rental)
    requires ReturnReady(service.club, r.rentalId) && Chargeable(service.club, r)
    modifies service.rentals, service.inventory.items.Values, service`club
    ensures service.Valid() && service.rentals == old(service.rentals)
    ensures unchanged(service.inventory)
    ensures var res := Return(old(service.club), r.rentalId, today);
      service.club == res.club && returned == res.ok
    ensures Unmoved(old(service.club), service.club)
    ensures returned ==> lateFee == Fee(old(service.club), r, today)
  {
    assert rental.itemId in service.inventory.items && rental.memberId in service.memberRegistry.members;
    var item := service.inventory.GetItem(rental.itemId).value;
    var member := service.memberRegistry.GetMember(rental.memberId).value;
    ghost var c1 := service.club;
    returned := service.ReturnItem(rental.rentalId, today);
    ReturnUnmoved(c1, r.rentalId, today);
    lateFee := 0.0;
    if returned {
      assert item.pricePerDay == DailyPrices(c1.stock)[r.itemId];
      assert member.level == c1.members[r.memberId].level;
      assert SameTerms(r, rental.Data());
      FeeFromTerms(c1, r, rental.Data(), item.Data(), member.Data(), today);
      lateFee := LateFee(rental.Data(), item.Data(), member.Data(), today);
    }
  }

  /** One pass of processReturnBulk's loop: return the rental and update the three running results. */
  method BulkLine(service: RentalService, rental: Rental, today: int, ghost r: RentalData,
                  totalLateFees: real, successCount: nat, returnedItems: seq<string>)
    returns (totalLateFees': real, successCount': nat, returnedItems': seq<string>)
    requires service.Valid() && Describes(r, rental)
    requires ReturnReady(service.club, r.rentalId) && Chargeable(service.club, r)
    modifies service.rentals, service.inventory.items.Values, service`club
    ensures service.Valid() && service.rentals == old(service.rentals)
    ensures unchanged(service.inventory)
    ensures var res := Return(old(service.club), r.rentalId, today);
      var lateFee := Fee(old(service.club), r, today);
      && service.club == res.club
      && totalLateFees' == AddFee(totalLateFees, res.ok, lateFee)
      && successCount' == (if res.ok then successCount + 1 else successCount)
      && returnedItems' == (if res.ok then returnedItems + [r.itemId] else returnedItems)
  {
    totalLateFees', successCount', returnedItems' := totalLateFees, successCount, returnedItems;
    var returned, lateFee := ReturnOne(service, rental, today, r);
    if returned {
      successCount' := successCount' + 1;
      if lateFee > 0.0 {
        totalLateFees' := totalLateFees' + lateFee;
      }
      returnedItems' := returnedItems' + [rental.itemId];
    }
  }

  /** One turn of processReturnBulk's loop: rental `i` is returned and the running totals move from prefix `i` to prefix `i + 1`. */
  method ReturnNext(service: RentalService, rental: Rental, today: int, ghost c0: Club, ghost rs: seq<RentalData>, ghost i: nat,
                    totalLateFees: real, successCount: nat, returnedItems: seq<string>)
    returns (totalLateFees': real, successCount': nat, returnedItems': seq<string>)
    requires service.Valid() && AllReady(c0, rs) && i < |rs| && Describes(rs[i], rental)
    requires var b := BulkPrefix(c0, rs, i, today, false);
      b.club == service.club && b.totalLateFees == totalLateFees
      && b.successCount == successCount && b.returned == returnedItems
    modifies service.rentals, service.inventory.items.Values, service`club
    ensures service.Valid() && service.rentals == old(service.rentals)
    ensures unchanged(service.inventory)
    ensures var b := BulkPrefix(c0, rs, i + 1, today, false);
      b.club == service.club && b.totalLateFees == totalLateFees'
      && b.successCount == successCount' && b.returned == returnedItems'
  {
    BulkStepEffect(BulkPrefix(c0, rs, i, today, false), c0, rs[i], today, false);
    totalLateFees', successCount', returnedItems' :=
      BulkLine(service, rental, today, rs[i], totalLateFees, successCount, returnedItems);
  }

  /**
   * processReturnBulk's loop: every rental of the list is returned in order and the ledger moves
   * as BulkReturn says; the fee total, the success count and the receipt's items are BulkReturn's.
   */
  method ReturnEach(service: RentalService, rentals: seq<Rental>, today: int, ghost rs: seq<RentalData>)
    returns (totalLateFees: real, successCount: nat, returnedItems: seq<string>)
    requires service.Valid() && AllReady(service.club, rs)
    requires |rs| == |rentals| && forall k :: 0 <= k < |rentals| ==> Describes(rs[k], rentals[k])
    modifies service.rentals, service.inventory.items.Values, service`club
    ensures service.Valid()
    ensures var b := BulkReturn(old(service.club), rs, today, false);
      service.club == b.club && totalLateFees == b.totalLateFees
      && successCount == b.successCount && returnedItems == b.returned
  {
    ghost var c0 := service.club;
    returnedItems := [];
    totalLateFees := 0.0;
    successCount := 0;
    var i := 0;
    while i < |rentals|
      invariant i <= |rentals|
      invariant service.Valid() && service.rentals == old(service.rentals)
      invariant service.inventory.items == old(service.inventory.items)
      invariant var b := BulkPrefix(c0, rs, i, today, false);
        b.club == service.club && b.totalLateFees == totalLateFees
        && b.successCount == successCount && b.returned == returnedItems
    {
      var j := i + 1;
      totalLateFees, successCount, returnedItems :=
        ReturnNext(service, rentals[i], today, c0, rs, i, totalLateFees, successCount, returnedItems);
      i := j;
    }
  }

  /**
   * processReturnBulk: the returns of ReturnEach, then one credit of the fee total, which moves
   * the revenue only when the total is positive.
   */
  method ProcessReturnBulk(service: RentalService, revenueService: RevenueService, rentals: seq<Rental>, today: int)
    returns (totalLateFees: real, successCount: nat, returnedItems: seq<string>)
    requires service.Valid() && revenueService.Valid() && AllReady(service.club, Snapshots(rentals))
    modifies service.rentals, service.inventory.items.Values, service`club, revenueService
    ensures service.Valid() && revenueService.Valid()
    ensures var b := BulkReturn(old(service.club), old(Snapshots(rentals)), today, false);
      service.club == b.club && totalLateFees == b.totalLateFees
      && successCount == b.successCount && returnedItems == b.returned
      && revenueService.totalRevenue == Credited(old(revenueService.totalRevenue), b.totalLateFees)
  {
    ghost var rs := Snapshots(rentals);
    assert forall k :: 0 <= k < |rentals| ==> Describes(rs[k], rentals[k]);
    ghost var revenue0 := revenueService.totalRevenue;
    totalLateFees, successCount, returnedItems := ReturnEach(service, rentals, today, rs);
    assert revenueService.totalRevenue == revenue0;
    if totalLateFees > 0.0 {
      Credit(revenueService, totalLateFees, service, []);
    }
  }

  /**
   * processReturn: the rental is returned; only when that succeeds is its late fee priced, and
   * the revenue moves only when that fee is positive.
   */
  method ProcessReturn(service: RentalService, revenueService: RevenueService, rental: Rental, today: int)
    returns (returned: bool)
    requires service.Valid() && revenueService.Valid()
    requires ReturnReady(service.club, rental.rentalId) && Chargeable(service.club, rental.Data())
    modifies service.rentals, service.inventory.items.Values, service`club, revenueService
    ensures service.Valid() && revenueService.Valid()
    ensures var res := Return(old(service.club), rental.rentalId, today);
      service.club == res.club && returned == res.ok
      && revenueService.totalRevenue
         == (if returned then Credited(old(revenueService.totalRevenue), Fee(old(service.club), old(rental.Data()), today))
             else old(revenueService.totalRevenue))
  {
    ghost var c0 := service.club;
    ghost var r := rental.Data();
    var lateFee;
    returned, lateFee := ReturnOne(service, rental, today, r);
    if returned && lateFee > 0.0 {
      Credit(revenueService, lateFee, service, []);
    }
  }

  // ---------------------------------------------------------------- selecting what to return

  /** returnMultipleItems' parsing: nothing for a blank line, otherwise the comma-list selection over the active rentals. */
  method ReturnSelection(activeRentals: seq<Rental>, line: string) returns (toReturn: seq<Rental>)
    ensures toReturn == (if Trim(line) == [] then [] else Selected(Split(Trim(line), ','), activeRentals))
  {
    var input := Trim(line);
    if |input| == 0 {
      return [];
    }
    toReturn := ParseSelection(input, activeRentals);
  }

  /** The members referenced by the rentals, in rental order. */
  function MemberIds(rs: seq<Rental>): (ids: seq<Int32>)
    ensures |ids| == |rs| && forall k :: 0 <= k < |rs| ==> ids[k] == rs[k].memberId
  {
    if |rs| == 0 then [] else MemberIds(rs[..|rs| - 1]) + [rs[|rs| - 1].memberId]
  }

  /** The ids in order of first appearance, each once. */
  function Dedup(ids: seq<Int32>): (d: seq<Int32>)
    ensures forall i, j :: 0 <= i < j < |d| ==> d[i] != d[j]
    ensures forall x :: x in d <==> x in ids
  {
    if |ids| == 0 then []
    else
      var prev := Dedup(ids[..|ids| - 1]);
      if ids[|ids| - 1] in prev then prev else prev + [ids[|ids| - 1]]
  }

  /**
   * returnAllItems' grouping: the registered member of each rental, each member once, in order
   * of first appearance.  A member that is not registered makes the source fail; it is excluded.
   */
  method GroupMembers(registry: MemberRegistry, activeRentals: seq<Rental>) returns (membersWithRentals: seq<Member>)
    requires registry.Valid()
    requires forall k :: 0 <= k < |activeRentals| ==> activeRentals[k].memberId in registry.members
    ensures var d := Dedup(MemberIds(activeRentals));
      |membersWithRentals| == |d|
      && forall i :: 0 <= i < |d| ==> d[i] in registry.members && membersWithRentals[i] == registry.members[d[i]]
    ensures forall i, j :: 0 <= i < j < |membersWithRentals| ==> membersWithRentals[i] != membersWithRentals[j]
  {
    ghost var ids := MemberIds(activeRentals);
    membersWithRentals := [];
    var i := 0;
    while i < |activeRentals|
      invariant 0 <= i <= |activeRentals|
      invariant Grouped(registry.members, ids[..i], membersWithRentals)
    {
      var member := registry.GetMember(activeRentals[i].memberId).value;
      GroupStep(registry.members, ids, i, membersWithRentals);
      if member !in membersWithRentals {
        membersWithRentals := membersWithRentals + [member];
      }
      i := i + 1;
    }
    assert ids[..i] == ids;
    forall i, j | 0 <= i < j < |membersWithRentals|
      ensures membersWithRentals[i] != membersWithRentals[j]
    {
      var d := Dedup(ids);
      assert membersWithRentals[i].id == d[i] && membersWithRentals[j].id == d[j];
    }
  }

  /** The members found so far are the registered members of the distinct ids so far, in order. */
  ghost predicate Grouped(members: map<Int32, Member>, ids: seq<Int32>, ms: seq<Member>)
  {
    var d := Dedup(ids);
    |ms| == |d| && forall j :: 0 <= j < |d| ==> d[j] in members && ms[j] == members[d[j]]
  }

  /** One pass of the grouping loop: a member already listed is skipped, a new one appended. */
  lemma GroupStep(members: map<Int32, Member>, ids: seq<Int32>, i: nat, ms: seq<Member>)
    requires forall k :: k in members ==> members[k].id == k
    requires i < |ids| && forall k :: 0 <= k < |ids| ==> ids[k] in members
    requires Grouped(members, ids[..i], ms)
    ensures var m := members[ids[i]]; Grouped(members, ids[..i + 1], if m in ms then ms else ms + [m])
  {
    assert ids[..i + 1][..i] == ids[..i];
    var d := Dedup(ids[..i]);
    var m := members[ids[i]];
    assert forall x :: x in d ==> x in members by {
      forall x | x in d
        ensures x in members
      {
        var k :| 0 <= k < i && ids[..i][k] == x;
      }
    }
    if m !in ms {
      assert ids[i] !in d;
    } else {
      var j :| 0 <= j < |ms| && ms[j] == m;
      assert d[j] == m.id;
    }
  }

  /**
   * returnAllItems' choice of member: a single member is taken without asking; otherwise the
   * first answer in 0..count picks one, 0 meaning cancel.
   */
  method SelectMember(membersWithRentals: seq<Member>, lines: seq<string>) returns (selected: Option<Member>)
    ensures |membersWithRentals| == 1 ==> selected == Some(membersWithRentals[0])
    ensures |membersWithRentals| != 1 ==>
      match FirstInt(lines, 0, |membersWithRentals|)
      case None => selected.None?
      case Some(reading) =>
        selected == (if reading.value == 0 then None else Some(membersWithRentals[reading.value - 1]))
  {
    if |membersWithRentals| == 1 {
      return Some(membersWithRentals[0]);
    }
    var choice := GetIntInRange(lines, 0, |membersWithRentals|);
    if choice.None? || choice.value.value == 0 {
      return None;
    }
    return Some(membersWithRentals[choice.value.value - 1]);
  }

  /** The rentals of one member, in list order. */
  function OfMember(rs: seq<Rental>, memberId: Int32): (r: seq<Rental>)
    ensures |r| <= |rs|
    ensures forall i :: 0 <= i < |r| ==> r[i] in rs && r[i].memberId == memberId
    ensures forall i :: 0 <= i < |rs| && rs[i].memberId == memberId ==> rs[i] in r
  {
    if |rs| == 0 then []
    else OfMember(rs[..|rs| - 1], memberId) + (if rs[|rs| - 1].memberId == memberId then [rs[|rs| - 1]] else [])
  }

  /** returnAllItems' filter: the selected member's rentals among the active ones, in their order. */
  method MemberRentals(activeRentals: seq<Rental>, selectedMember: Member) returns (memberRentals: seq<Rental>)
    ensures memberRentals == OfMember(activeRentals, selectedMember.id)
  {
    memberRentals := [];
    var i := 0;
    while i < |activeRentals|
      invariant 0 <= i <= |activeRentals|
      invariant memberRentals == OfMember(activeRentals[..i], selectedMember.id)
    {
      assert activeRentals[..i + 1][..i] == activeRentals[..i];
      if activeRentals[i].memberId == selectedMember.id {
        memberRentals := memberRentals + [activeRentals[i]];
      }
      i := i + 1;
    }
    assert activeRentals[..i] == activeRentals;
  }

  /** Filtering the active list by member keeps only ACTIVE rentals of that member. */
  lemma {:induction false} MemberRentalsActive(rs: seq<Rental>, memberId: Int32, x: Rental)
    requires x in OfMember(ActiveRentals(rs), memberId)
    ensures x in rs && IsActive(x.Data()) && x.memberId == memberId
  {
  }
}
