/** Member id generation: a single Java `int` counter, starting at 1 and post-incremented. */
module MemberIds {
  import opened Text

  /** `counter++` on a Java int: the successor, wrapping from the largest int to the smallest. */
  function Succ(c: Int32): (r: Int32)
    ensures c < MaxInt as Int32 ==> r as int == c as int + 1
    ensures c == MaxInt as Int32 ==> r as int == MinInt
  {
    if c == 0x7FFF_FFFF then -0x8000_0000 else c + 1
  }

  /** The counter after n calls on a fresh generator. */
  function CounterAfter(n: nat): Int32
  {
    if n == 0 then 1 else Succ(CounterAfter(n - 1))
  }

  /** Before the counter can wrap, n calls leave it at n + 1. */
  lemma {:induction false} CounterAfterCalls(n: nat)
    requires n < MaxInt
    ensures CounterAfter(n) as int == n + 1
  {
    if n > 0 {
      CounterAfterCalls(n - 1);
    }
  }

  /**
   * Call number i (counting from 0) returns CounterAfter(i): the first call returns 1, each
   * later call one more, and below the wrap-around the ids are positive and pairwise distinct.
   */
  lemma IssuedIdsDistinct(i: nat, j: nat)
    requires i < j < MaxInt
    ensures CounterAfter(i) > 0 && CounterAfter(i) < CounterAfter(j)
    ensures CounterAfter(0) == 1 && CounterAfter(j) as int == CounterAfter(j - 1) as int + 1
  {
    CounterAfterCalls(i);
    CounterAfterCalls(j);
    CounterAfterCalls(j - 1);
  }

  /** The 2147483647th call returns the largest int; the call after it returns the smallest. */
  lemma WrapsAfterMaxInt()
    ensures Succ(MaxInt as Int32) as int == MinInt
  {
  }

  class MemberIdGenerator {
    var counter: Int32
    /** How many ids have been handed out. */
    ghost var calls: nat

    ghost predicate Valid()
      reads this
    {
      counter == CounterAfter(calls)
    }

    constructor ()
      ensures Valid() && calls == 0 && counter == 1
    {
      counter := 1;
      calls := 0;
    }

    method GenerateMemberId() returns (id: Int32)
      requires Valid()
      modifies this
      ensures Valid() && calls == old(calls) + 1
      ensures id == old(counter) && id == CounterAfter(old(calls))
    {
      id := counter;
      counter := Succ(counter);
      calls := calls + 1;
    }
  }
}
