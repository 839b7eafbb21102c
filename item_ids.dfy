/**
 * Item id generation: one counter per concrete item kind, each starting at 1, and ids of the
 * form PREFIX "-" followed by the counter zero-padded to three digits.
 */
module ItemIds {
  import opened Domain
  import opened Text

  /** The kinds that have a generator. */
  predicate Generated(k: ItemKind) { k != OtherKind }

  function Prefix(k: ItemKind): (p: string)
    requires Generated(k)
    ensures |p| >= 2 && p[|p| - 1] == '-'
    ensures forall i :: 0 <= i < |p| - 1 ==> 'A' <= p[i] <= 'Z'
  {
    match k
    case Backpack => "BACK-"
    case Lantern => "LANT-"
    case SleepingBag => "SLEEP-"
    case Tent => "TENT-"
    case TrangiaKitchen => "TRANG-"
    case FishingBait => "BAIT-"
    case FishingNet => "NET-"
    case FishingRod => "ROD-"
    case Kayak => "KAY-"
    case ElectricBoat => "EBOAT-"
    case MotorBoat => "MBOAT-"
    case RowBoat => "RBOAT-"
  }

  /** The id the generator for kind k hands out when its counter stands at n. */
  function IdFor(k: ItemKind, n: nat): string
    requires Generated(k)
  {
    Prefix(k) + Pad3(n)
  }

  /** The twelve prefixes are pairwise different. */
  lemma PrefixesDistinct(k1: ItemKind, k2: ItemKind)
    requires Generated(k1) && Generated(k2) && k1 != k2
    ensures Prefix(k1) != Prefix(k2)
  {
  }

  /** In an id, the first '-' closes the prefix: letters come before it and only digits after it. */
  lemma DashEndsPrefix(k: ItemKind, n: nat)
    requires Generated(k)
    ensures var id := IdFor(k, n); var p := Prefix(k);
      |p| <= |id| && id[|p| - 1] == '-' && (forall i :: 0 <= i < |p| - 1 ==> id[i] != '-')
      && (forall i :: |p| <= i < |id| ==> IsDigit(id[i]))
  {
    var p := Prefix(k);
    var id := IdFor(k, n);
    assert forall i :: 0 <= i < |p| ==> id[i] == p[i];
    assert forall i :: |p| <= i < |id| ==> id[i] == Pad3(n)[i - |p|];
  }

  /** Ids produced by generators of two different kinds never coincide. */
  lemma {:induction false} KindsNeverCollide(k1: ItemKind, n1: nat, k2: ItemKind, n2: nat)
    requires Generated(k1) && Generated(k2) && k1 != k2
    ensures IdFor(k1, n1) != IdFor(k2, n2)
  {
    var p1, p2 := Prefix(k1), Prefix(k2);
    var id1, id2 := IdFor(k1, n1), IdFor(k2, n2);
    DashEndsPrefix(k1, n1);
    DashEndsPrefix(k2, n2);
    if |p1| < |p2| {
      assert id1[|p1| - 1] != id2[|p1| - 1];
    } else if |p2| < |p1| {
      assert id1[|p2| - 1] != id2[|p2| - 1];
    } else {
      PrefixesDistinct(k1, k2);
      var i :| 0 <= i < |p1| && p1[i] != p2[i];
      assert id1[i] == p1[i] && id2[i] == p2[i];
    }
  }

  /** One generator never repeats an id: different counter values give different ids. */
  lemma SameKindInjective(k: ItemKind, m: nat, n: nat)
    requires Generated(k) && IdFor(k, m) == IdFor(k, n)
    ensures m == n
  {
    var p := Prefix(k);
    assert Pad3(m) == IdFor(k, m)[|p|..];
    assert Pad3(n) == IdFor(k, n)[|p|..];
    Pad3Injective(m, n);
  }

  /** The first id of every kind is its prefix followed by "001". */
  lemma FirstIds(k: ItemKind)
    requires Generated(k)
    ensures IdFor(k, 1) == Prefix(k) + "001"
  {
    assert Digits(1) == ['1'];
  }

  class ItemIdGenerator {
    var backpackCounter: nat
    var lanternCounter: nat
    var sleepingBagCounter: nat
    var tentCounter: nat
    var trangiaCounter: nat
    var baitCounter: nat
    var netCounter: nat
    var rodCounter: nat
    var kayakCounter: nat
    var electricBoatCounter: nat
    var motorBoatCounter: nat
    var rowBoatCounter: nat

    /** The counter behind the generator for kind k. */
    function Counter(k: ItemKind): nat
      requires Generated(k)
      reads this
    {
      match k
      case Backpack => backpackCounter
      case Lantern => lanternCounter
      case SleepingBag => sleepingBagCounter
      case Tent => tentCounter
      case TrangiaKitchen => trangiaCounter
      case FishingBait => baitCounter
      case FishingNet => netCounter
      case FishingRod => rodCounter
      case Kayak => kayakCounter
      case ElectricBoat => electricBoatCounter
      case MotorBoat => motorBoatCounter
      case RowBoat => rowBoatCounter
    }

    constructor ()
      ensures forall k :: Generated(k) ==> Counter(k) == 1
    {
      backpackCounter, lanternCounter, sleepingBagCounter, tentCounter, trangiaCounter := 1, 1, 1, 1, 1;
      baitCounter, netCounter, rodCounter := 1, 1, 1;
      kayakCounter, electricBoatCounter, motorBoatCounter, rowBoatCounter := 1, 1, 1, 1;
    }

    /**
     * generateBackpackId, generateLanternId, ... generateRowBoatId: the id for the current
     * counter of that kind, after which that counter, and no other, moves up by one.
     */
    method GenerateId(k: ItemKind) returns (id: string)
      requires Generated(k)
      modifies this
      ensures id == IdFor(k, old(Counter(k)))
      ensures Counter(k) == old(Counter(k)) + 1
      ensures forall j :: Generated(j) && j != k ==> Counter(j) == old(Counter(j))
    {
      id := IdFor(k, Counter(k));
      match k
      case Backpack => backpackCounter := backpackCounter + 1;
      case Lantern => lanternCounter := lanternCounter + 1;
      case SleepingBag => sleepingBagCounter := sleepingBagCounter + 1;
      case Tent => tentCounter := tentCounter + 1;
      case TrangiaKitchen => trangiaCounter := trangiaCounter + 1;
      case FishingBait => baitCounter := baitCounter + 1;
      case FishingNet => netCounter := netCounter + 1;
      case FishingRod => rodCounter := rodCounter + 1;
      case Kayak => kayakCounter := kayakCounter + 1;
      case ElectricBoat => electricBoatCounter := electricBoatCounter + 1;
      case MotorBoat => motorBoatCounter := motorBoatCounter + 1;
      case RowBoat => rowBoatCounter := rowBoatCounter + 1;
    }
  }
}
