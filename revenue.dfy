/** The revenue accumulator: a running total that only positive amounts move. */
module Revenue {

  /** addRevenue on a total: a positive amount is added, anything else is ignored. */
  function Credited(total: real, amount: real): (r: real)
    ensures r >= total
    ensures r > total <==> amount > 0.0
  {
    if amount > 0.0 then total + amount else total
  }

  /** A run of addRevenue calls, in order. */
  function CreditedAll(total: real, amounts: seq<real>): real
  {
    if |amounts| == 0 then total else Credited(CreditedAll(total, amounts[..|amounts| - 1]), amounts[|amounts| - 1])
  }

  /** The sum of the positive amounts. */
  function PositivePart(amounts: seq<real>): (s: real)
    ensures s >= 0.0
  {
    if |amounts| == 0 then 0.0
    else PositivePart(amounts[..|amounts| - 1]) + (if amounts[|amounts| - 1] > 0.0 then amounts[|amounts| - 1] else 0.0)
  }

  /** However many calls are made, the total grows by exactly the positive amounts, so it never falls. */
  lemma {:induction false} CreditedAllIsPositivePart(total: real, amounts: seq<real>)
    ensures CreditedAll(total, amounts) == total + PositivePart(amounts)
    ensures CreditedAll(total, amounts) >= total
  {
    if |amounts| > 0 {
      CreditedAllIsPositivePart(total, amounts[..|amounts| - 1]);
    }
  }

  class RevenueService {
    var totalRevenue: real

    /** The total is never negative. */
    ghost predicate Valid()
      reads this
    {
      totalRevenue >= 0.0
    }

    constructor ()
      ensures Valid() && totalRevenue == 0.0
    {
      totalRevenue := 0.0;
    }

    method AddRevenue(amount: real)
      requires Valid()
      modifies this
      ensures Valid()
      ensures totalRevenue == Credited(old(totalRevenue), amount)
    {
      if amount > 0.0 {
        totalRevenue := totalRevenue + amount;
      }
    }

    function GetTotalRevenue(): (t: real)
      requires Valid()
      reads this
      ensures t >= 0.0
    {
      totalRevenue
    }

    method ResetRevenue()
      modifies this
      ensures Valid() && totalRevenue == 0.0
    {
      totalRevenue := 0.0;
    }
  }
}
