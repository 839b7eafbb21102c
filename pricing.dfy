/**
 * The tier price policies.  Standard pricing charges the item's rate times the duration;
 * premium pricing charges the same times 0.7.  The policy for student members is not part of
 * this model and is supplied as a function value.
 */
module Pricing {
  import opened Domain
  import opened ItemModel
  import opened MemberModel

  /** The shape of PricePolicy.calculatePrice(item, member, duration, period). */
  type PriceFn = (ItemData, MemberData, int, RentalPeriod) -> real

  /** The multiplier premium members pay. */
  const PremiumFactor: real := 0.7

  /** The rate the period selects: per hour for HOURLY, per day otherwise. */
  function Rate(item: ItemData, period: RentalPeriod): real
  {
    if period == Hourly then item.pricePerHour else item.pricePerDay
  }

  function StandardPrice(item: ItemData, member: MemberData, duration: int, period: RentalPeriod): real
  {
    if period == Hourly then item.pricePerHour * duration as real
    else item.pricePerDay * duration as real
  }

  function PremiumPrice(item: ItemData, member: MemberData, duration: int, period: RentalPeriod): real
  {
    if period == Hourly then item.pricePerHour * duration as real * PremiumFactor
    else item.pricePerDay * duration as real * PremiumFactor
  }

  /** The tier-to-policy selection: STANDARD and PREMIUM as above, STUDENT by the given policy. */
  function PolicyPrice(student: PriceFn, item: ItemData, member: MemberData, duration: int,
                       period: RentalPeriod): real
  {
    match member.level
    case Standard => StandardPrice(item, member, duration, period)
    case Premium => PremiumPrice(item, member, duration, period)
    case Student => student(item, member, duration, period)
  }

  /** Both policies are linear in the duration, and free for a zero duration. */
  lemma Linear(item: ItemData, member: MemberData, d: int, e: int, period: RentalPeriod)
    ensures StandardPrice(item, member, d + e, period)
         == StandardPrice(item, member, d, period) + StandardPrice(item, member, e, period)
    ensures PremiumPrice(item, member, d + e, period)
         == PremiumPrice(item, member, d, period) + PremiumPrice(item, member, e, period)
    ensures StandardPrice(item, member, 2 * d, period) == 2.0 * StandardPrice(item, member, d, period)
    ensures PremiumPrice(item, member, 2 * d, period) == 2.0 * PremiumPrice(item, member, d, period)
    ensures StandardPrice(item, member, 0, period) == 0.0 && PremiumPrice(item, member, 0, period) == 0.0
  {
    var r := Rate(item, period);
    assert StandardPrice(item, member, d + e, period) == r * (d + e) as real;
    assert r * (d + e) as real == r * d as real + r * e as real;
  }

  /** The member argument never influences either price. */
  lemma MemberIrrelevant(item: ItemData, m1: MemberData, m2: MemberData, duration: int, period: RentalPeriod)
    ensures StandardPrice(item, m1, duration, period) == StandardPrice(item, m2, duration, period)
    ensures PremiumPrice(item, m1, duration, period) == PremiumPrice(item, m2, duration, period)
  {
  }

  /** Premium is exactly 0.7 times standard, hence never more for non-negative rates and durations. */
  lemma PremiumIsSeventyPercent(item: ItemData, member: MemberData, duration: int, period: RentalPeriod)
    ensures PremiumPrice(item, member, duration, period) == 0.7 * StandardPrice(item, member, duration, period)
    ensures Rate(item, period) >= 0.0 && duration >= 0 ==>
              0.0 <= PremiumPrice(item, member, duration, period) <= StandardPrice(item, member, duration, period)
  {
    var p := StandardPrice(item, member, duration, period);
    if Rate(item, period) >= 0.0 && duration >= 0 {
      NonNegative(item, member, duration, period);
      assert 0.7 * p <= p;
    }
  }

  /** With non-negative rates and duration the standard price is non-negative. */
  lemma NonNegative(item: ItemData, member: MemberData, duration: int, period: RentalPeriod)
    requires Rate(item, period) >= 0.0 && duration >= 0
    ensures StandardPrice(item, member, duration, period) >= 0.0
    ensures PremiumPrice(item, member, duration, period) >= 0.0
  {
    assert StandardPrice(item, member, duration, period) == Rate(item, period) * duration as real;
  }
}
