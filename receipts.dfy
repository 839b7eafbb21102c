/**
 * The arithmetic of ReceiptGenerator: the late fee reconstructed from what a rental cost, the
 * discounted receipt total and the expected return time shown for each cart line.
 */
module Receipts {
  import opened Wrappers
  import opened Domain
  import opened ItemModel
  import opened MemberModel
  import opened RentalModel
  import opened Pricing

  /** Math.round on an exact value: the nearest integer, halves rounded up. */
  function Round(x: real): (n: int)
    ensures n as real - 0.5 <= x < n as real + 0.5
  {
    (x + 0.5).Floor
  }

  lemma RoundOfInteger(n: int)
    ensures Round(n as real) == n
  {
  }

  /** A daily price after a tier's discount. */
  function Rate(pricePerDay: real, level: MembershipLevel): real
  {
    pricePerDay * (1.0 - Discount(level))
  }

  /** The item's daily rate after the member's tier discount. */
  function EffectiveDailyRate(item: ItemData, member: MemberData): real
  {
    Rate(item.pricePerDay, member.level)
  }

  /** Whole days from the rental's start to the day of return (ChronoUnit.DAYS.between). */
  function DaysRented(r: RentalData, returnDay: int): int
  {
    returnDay - r.startDate
  }

  /** How many days the amount paid covers, at the effective daily rate. */
  function ExpectedDays(r: RentalData, item: ItemData, member: MemberData): int
    requires EffectiveDailyRate(item, member) > 0.0
  {
    Round(r.totalCost / EffectiveDailyRate(item, member))
  }

  /**
   * The late fee from what it depends on: the amount paid, the start day, the daily price and
   * the tier.  The days past those the amount covers are charged at the discounted daily rate.
   */
  function FeeAt(totalCost: real, startDate: int, pricePerDay: real, level: MembershipLevel, returnDay: int): real
    requires Rate(pricePerDay, level) > 0.0
  {
    var rate := Rate(pricePerDay, level);
    var expected := Round(totalCost / rate);
    var days := returnDay - startDate;
    if days > expected then (days - expected) as real * rate else 0.0
  }

  /**
   * calculateLateFee and calculateBulkLateFeeAmount: the days past the covered period, at the
   * effective daily rate; nothing when the item comes back within that period.
   */
  function LateFee(r: RentalData, item: ItemData, member: MemberData, returnDay: int): real
    requires EffectiveDailyRate(item, member) > 0.0
  {
    FeeAt(r.totalCost, r.startDate, item.pricePerDay, member.level, returnDay)
  }

  /** calculateBulkLateFeeInfo: the overdue days and the fee when overdue, nothing otherwise. */
  function BulkLateFeeInfo(r: RentalData, item: ItemData, member: MemberData, returnDay: int)
    : Option<(int, real)>
    requires EffectiveDailyRate(item, member) > 0.0
  {
    var expected := ExpectedDays(r, item, member);
    var days := DaysRented(r, returnDay);
    if days > expected then Some((days - expected, (days - expected) as real * EffectiveDailyRate(item, member)))
    else None
  }

  /**
   * With a positive rate the fee is never negative, it is zero exactly when the item comes
   * back within the covered days, and otherwise it is the overdue days at the rate.
   */
  lemma LateFeeCases(r: RentalData, item: ItemData, member: MemberData, returnDay: int)
    requires EffectiveDailyRate(item, member) > 0.0
    ensures LateFee(r, item, member, returnDay) >= 0.0
    ensures LateFee(r, item, member, returnDay) == 0.0
            <==> DaysRented(r, returnDay) <= ExpectedDays(r, item, member)
  {
    var rate := EffectiveDailyRate(item, member);
    var overdue := DaysRented(r, returnDay) - ExpectedDays(r, item, member);
    if overdue > 0 {
      PositiveProduct(overdue as real, rate);
    }
  }

  lemma PositiveProduct(a: real, b: real)
    requires a > 0.0 && b > 0.0
    ensures a * b > 0.0
  {
  }

  /** Returning later never costs less. */
  lemma LateFeeMonotone(r: RentalData, item: ItemData, member: MemberData, day1: int, day2: int)
    requires EffectiveDailyRate(item, member) > 0.0 && day1 <= day2
    ensures LateFee(r, item, member, day1) <= LateFee(r, item, member, day2)
  {
    var rate := EffectiveDailyRate(item, member);
    var expected := ExpectedDays(r, item, member);
    var o1, o2 := DaysRented(r, day1) - expected, DaysRented(r, day2) - expected;
    if o1 > 0 {
      ScaleMonotone(o1 as real, o2 as real, rate);
    } else {
      LateFeeCases(r, item, member, day2);
    }
  }

  lemma ScaleMonotone(a: real, b: real, rate: real)
    requires a <= b && rate >= 0.0
    ensures a * rate <= b * rate
  {
  }

  /** The single-return fee and the bulk fee agree, and the bulk note appears exactly when there is a fee. */
  lemma BulkInfoMatchesFee(r: RentalData, item: ItemData, member: MemberData, returnDay: int)
    requires EffectiveDailyRate(item, member) > 0.0
    ensures var info := BulkLateFeeInfo(r, item, member, returnDay);
      (info.Some? <==> LateFee(r, item, member, returnDay) > 0.0)
      && (info.Some? ==> info.value.1 == LateFee(r, item, member, returnDay) && info.value.0 > 0)
  {
    LateFeeCases(r, item, member, returnDay);
  }

  /**
   * For a DAILY rental priced by the standard or the premium policy at the member's current
   * tier, the covered days are the days that were booked.
   */
  lemma DailyExpectedDaysIsDuration(r: RentalData, item: ItemData, member: MemberData, duration: int)
    requires item.pricePerDay > 0.0 && member.level != Student
    requires r.totalCost == (if member.level == Standard then StandardPrice(item, member, duration, Daily)
                                                              else PremiumPrice(item, member, duration, Daily))
    ensures EffectiveDailyRate(item, member) > 0.0
    ensures ExpectedDays(r, item, member) == duration
  {
    var p := item.pricePerDay;
    var d := duration as real;
    var rate := EffectiveDailyRate(item, member);
    if member.level == Standard {
      assert rate == p;
      assert r.totalCost == p * d;
      QuotientOfMultiple(p, d);
    } else {
      assert rate == p * 0.7;
      assert r.totalCost == (p * 0.7) * d;
      QuotientOfMultiple(p * 0.7, d);
    }
    assert r.totalCost / rate == d;
    RoundOfInteger(duration);
  }

  lemma QuotientOfMultiple(p: real, d: real)
    requires p > 0.0
    ensures (p * d) / p == d
  {
  }

  // ---------------------------------------------------------------- receipt totals

  /** The receipt's total: the total before discount less the tier discount on it. */
  function TotalAfterDiscount(totalBefore: real, level: MembershipLevel): real
  {
    totalBefore - totalBefore * Discount(level)
  }

  /** The total after discount is the tier's share of the total, so never more than it. */
  lemma TotalAfterDiscountBounds(totalBefore: real, level: MembershipLevel)
    requires totalBefore >= 0.0
    ensures TotalAfterDiscount(totalBefore, level) == totalBefore * (1.0 - Discount(level))
    ensures 0.0 <= TotalAfterDiscount(totalBefore, level) <= totalBefore
    ensures level == Standard ==> TotalAfterDiscount(totalBefore, level) == totalBefore
  {
    var d := Discount(level);
    assert totalBefore * d <= totalBefore * 1.0 by {
      ScaleMonotone(d, 1.0, totalBefore);
    }
  }

  // ---------------------------------------------------------------- expected return time

  /** A local date-time: a day number, an hour and a minute. */
  datatype DateTime = DateTime(day: int, hour: int, minute: int)

  predicate ValidTime(t: DateTime)
  {
    0 <= t.hour < 24 && 0 <= t.minute < 60
  }

  /** Minutes since the start of day 0; it orders date-times. */
  function Stamp(t: DateTime): int
  {
    t.day * 1440 + t.hour * 60 + t.minute
  }

  /** LocalDateTime.plusHours: the hour wraps into the next (or previous) days. */
  function PlusHours(t: DateTime, h: int): (r: DateTime)
    requires ValidTime(t)
    ensures ValidTime(r) && r.minute == t.minute && Stamp(r) == Stamp(t) + 60 * h
  {
    var total := t.hour + h;
    DateTime(t.day + total / 24, total % 24, t.minute)
  }

  /** Inside opening hours: from 08:00 up to, not including, 20:00. */
  predicate OpenHours(t: DateTime)
  {
    8 <= t.hour < 20
  }

  /**
   * calculateReturnDateTime.  DAILY: the final day at 20:00.  HOURLY: now plus the hours; a time
   * at or after 20:00 moves to 08:00 the next day plus the hours past 20, a time before 08:00
   * moves to 08:00 the same day, and only in those two cases are the minutes rounded to the
   * nearest quarter, a round-up to 60 carrying into the next hour.
   */
  method ReturnDateTime(now: DateTime, period: RentalPeriod, duration: int) returns (t: DateTime)
    requires ValidTime(now)
    ensures ValidTime(t)
    ensures period == Daily ==> t == DateTime(now.day + duration, 20, 0)
    ensures period == Hourly ==>
      var u := PlusHours(now, duration);
      OpenHours(t)
      && (OpenHours(u) ==> t == u)
      && (!OpenHours(u) ==> t.minute % 15 == 0 && Stamp(t) > Stamp(u)
                            && (u.hour >= 20 ==> t.day == u.day + 1 && t.hour <= 8 + (u.hour - 20) + 1)
                            && (u.hour < 8 ==> t.day == u.day && t.hour <= 9))
    ensures period == Hourly ==>
      var u := PlusHours(now, duration);
      var moved := if u.hour >= 20 then PlusHours(DateTime(u.day + 1, 8, u.minute), u.hour - 20)
                   else DateTime(u.day, 8, u.minute);
      !OpenHours(u) ==> -7 <= Stamp(t) - Stamp(moved) <= 7
  {
    if period == Hourly {
      t := PlusHours(now, duration);
      var returnHour := t.hour;
      if returnHour >= 20 || returnHour < 8 {
        if returnHour >= 20 {
          var hoursOutside := returnHour - 20;
          t := PlusHours(DateTime(t.day + 1, 8, t.minute), hoursOutside);
        } else {
          t := t.(hour := 8);
        }
        var minutes := t.minute;
        var roundedMinutes := ((minutes + 7) / 15) * 15;
        if roundedMinutes == 60 {
          t := PlusHours(t, 1).(minute := 0);
        } else {
          t := t.(minute := roundedMinutes);
        }
      }
    } else {
      t := DateTime(now.day + duration, 20, 0);
    }
  }
}
