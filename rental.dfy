/**
 * A rental record.  Everything but the end date and the status is fixed at construction; the
 * status is a small machine that starts ACTIVE and is moved by complete, cancel and setStatus.
 */
module RentalModel {
  import opened Wrappers
  import opened Domain
  import opened Text

  datatype RentalData = RentalData(
    rentalId: string,
    memberId: Int32,
    itemId: string,
    startDate: int,
    expectedReturnDate: int,
    endDate: Option<int>,
    totalCost: real,
    status: RentalStatus)

  predicate IsActive(r: RentalData) { r.status == RentalStatus.Active }
  predicate IsCompleted(r: RentalData) { r.status == RentalStatus.Completed }

  /** complete(): the end date becomes today and the status COMPLETED, whatever the status was. */
  function AfterComplete(r: RentalData, today: int): (c: RentalData)
    ensures IsCompleted(c) && !IsActive(c) && c.endDate == Some(today)
    ensures SameTerms(r, c)
  {
    r.(endDate := Some(today), status := RentalStatus.Completed)
  }

  /** cancel(): the status becomes CANCELLED and the end date is left as it was. */
  function AfterCancel(r: RentalData): (c: RentalData)
    ensures !IsActive(c) && !IsCompleted(c) && c.endDate == r.endDate
    ensures SameTerms(r, c)
  {
    r.(status := RentalStatus.Cancelled)
  }

  /** The six fields that are final in the source agree. */
  predicate SameTerms(a: RentalData, b: RentalData)
  {
    a.rentalId == b.rentalId && a.memberId == b.memberId && a.itemId == b.itemId
    && a.startDate == b.startDate && a.expectedReturnDate == b.expectedReturnDate
    && a.totalCost == b.totalCost
  }

  /** isActive and isCompleted are never both true. */
  lemma ActiveExcludesCompleted(r: RentalData)
    ensures !(IsActive(r) && IsCompleted(r))
  {
  }

  class Rental {
    const rentalId: string
    const memberId: Int32
    const itemId: string
    const startDate: int
    const expectedReturnDate: int
    const totalCost: real
    var endDate: Option<int>
    var status: RentalStatus

    function Data(): RentalData
      reads this
    {
      RentalData(rentalId, memberId, itemId, startDate, expectedReturnDate, endDate, totalCost, status)
    }

    /** A new rental is ACTIVE, with the end date it is given. */
    constructor (rentalId: string, memberId: Int32, itemId: string, startDate: int,
                 expectedReturnDate: int, endDate: Option<int>, totalCost: real)
      ensures Data() == RentalData(rentalId, memberId, itemId, startDate, expectedReturnDate,
                                   endDate, totalCost, Active)
    {
      this.rentalId := rentalId;
      this.memberId := memberId;
      this.itemId := itemId;
      this.startDate := startDate;
      this.expectedReturnDate := expectedReturnDate;
      this.endDate := endDate;
      this.totalCost := totalCost;
      this.status := Active;
    }

    /** Any transition is allowed. */
    method SetStatus(s: RentalStatus)
      modifies this`status
      ensures Data() == old(Data()).(status := s)
    {
      status := s;
    }

    method Complete(today: int)
      modifies this
      ensures Data() == AfterComplete(old(Data()), today)
    {
      endDate := Some(today);
      status := RentalStatus.Completed;
    }

    method Cancel()
      modifies this`status
      ensures Data() == AfterCancel(old(Data()))
    {
      status := RentalStatus.Cancelled;
    }
  }

  /** The states of a list of rentals. */
  function Snapshots(rs: seq<Rental>): (r: seq<RentalData>)
    reads rs
    ensures |r| == |rs| && forall i :: 0 <= i < |rs| ==> r[i] == rs[i].Data()
  {
    if |rs| == 0 then [] else Snapshots(rs[..|rs| - 1]) + [rs[|rs| - 1].Data()]
  }

  /** The rentals whose status is ACTIVE, in order. */
  function ActiveOf(rs: seq<RentalData>): (r: seq<RentalData>)
    ensures |r| <= |rs|
    ensures forall x :: x in r <==> x in rs && IsActive(x)
  {
    if |rs| == 0 then []
    else ActiveOf(rs[..|rs| - 1]) + (if IsActive(rs[|rs| - 1]) then [rs[|rs| - 1]] else [])
  }

  /** Index of the first rental with the given id. */
  function FirstIndex(rs: seq<RentalData>, id: string): (r: Option<nat>)
    ensures r.None? <==> forall i :: 0 <= i < |rs| ==> rs[i].rentalId != id
    ensures r.Some? ==>
              r.value < |rs| && rs[r.value].rentalId == id
              && (forall i :: 0 <= i < r.value ==> rs[i].rentalId != id)
  {
    if |rs| == 0 then None
    else if rs[0].rentalId == id then Some(0)
    else match FirstIndex(rs[1..], id)
      case None => None
      case Some(k) => Some(k + 1)
  }
}
