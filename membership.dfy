/**
 * MembershipService: member management over the registry, with new ids drawn from the member
 * id generator, a level update that reports an unknown id, and a case-insensitive name search.
 */
module Membership {
  import opened Wrappers
  import opened Domain
  import opened Text
  import opened MemberModel
  import opened RegistryModel
  import opened MemberIds

  /** The search's test: the lower-cased name contains the lower-cased term. */
  predicate NameMatches(name: string, searchTerm: string)
  {
    Contains(ToLower(name), ToLower(searchTerm))
  }

  /** The members of `ms` whose names match, in list order. */
  function Matching(ms: seq<Member>, searchTerm: string): (r: seq<Member>)
    reads ms
    ensures |r| <= |ms|
    ensures forall i :: 0 <= i < |r| ==> r[i] in ms && NameMatches(r[i].name, searchTerm)
    ensures forall i :: 0 <= i < |ms| && NameMatches(ms[i].name, searchTerm) ==> ms[i] in r
  {
    if |ms| == 0 then []
    else
      var prev := Matching(ms[..|ms| - 1], searchTerm);
      var m := ms[|ms| - 1];
      if NameMatches(m.name, searchTerm) then prev + [m] else prev
  }

  /** An empty search term matches every name, so the search lists every member. */
  lemma {:induction false} EmptyTermMatchesAll(ms: seq<Member>)
    ensures Matching(ms, "") == ms
  {
    if |ms| > 0 {
      EmptyTermMatchesAll(ms[..|ms| - 1]);
      ContainsEmpty(ToLower(ms[|ms| - 1].name));
      assert ToLower("") == "";
      assert ms[..|ms| - 1] + [ms[|ms| - 1]] == ms;
    }
  }

  /** Lower-casing twice is lower-casing once. */
  lemma ToLowerIdempotent(s: string)
    ensures ToLower(ToLower(s)) == ToLower(s)
  {
    assert forall i :: 0 <= i < |s| ==> LowerChar(LowerChar(s[i])) == LowerChar(s[i]);
  }

  /** The search ignores the case of the term: a term and its lower-cased form find the same members. */
  lemma {:induction false} SearchIgnoresCase(ms: seq<Member>, searchTerm: string)
    ensures Matching(ms, ToLower(searchTerm)) == Matching(ms, searchTerm)
  {
    ToLowerIdempotent(searchTerm);
    if |ms| > 0 {
      SearchIgnoresCase(ms[..|ms| - 1], searchTerm);
    }
  }

  class MembershipService {
    const memberRegistry: MemberRegistry
    const memberIdGenerator: MemberIdGenerator

    ghost predicate Valid()
      reads this, memberRegistry, memberIdGenerator
    {
      memberRegistry.Valid() && memberIdGenerator.Valid()
    }

    constructor (memberRegistry: MemberRegistry, memberIdGenerator: MemberIdGenerator)
      ensures this.memberRegistry == memberRegistry && this.memberIdGenerator == memberIdGenerator
    {
      this.memberRegistry := memberRegistry;
      this.memberIdGenerator := memberIdGenerator;
    }

    /** addMember(Member): the member is filed under its own id, replacing any member with that id. */
    method AddMember(member: Member)
      requires Valid()
      modifies memberRegistry
      ensures Valid()
      ensures memberRegistry.members == old(memberRegistry.members)[member.id := member]
    {
      memberRegistry.AddMember(member);
    }

    /**
     * addMember(name, email, phone, level): a new member with the generator's next id and an
     * empty history, filed under that id.
     */
    method AddNewMember(name: string, email: string, phone: string, level: MembershipLevel)
      returns (newMember: Member)
      requires Valid()
      modifies memberRegistry, memberIdGenerator
      ensures Valid() && fresh(newMember)
      ensures memberIdGenerator.calls == old(memberIdGenerator.calls) + 1
      ensures newMember.Data() == MemberData(old(memberIdGenerator.counter), name, email, phone, level, [])
      ensures memberRegistry.members == old(memberRegistry.members)[newMember.id := newMember]
    {
      var memberId := memberIdGenerator.GenerateMemberId();
      newMember := new Member(memberId, name, email, phone, level);
      memberRegistry.AddMember(newMember);
    }

    /** removeMember: true exactly when the id was registered; afterwards it is not. */
    method RemoveMember(memberId: Int32) returns (removed: bool)
      requires Valid()
      modifies memberRegistry
      ensures Valid()
      ensures removed <==> memberId in old(memberRegistry.members)
      ensures memberRegistry.members == old(memberRegistry.members) - {memberId}
    {
      removed := memberRegistry.RemoveMember(memberId);
    }

    /** getMember: the registry's member with this id, or None. */
    function GetMember(memberId: Int32): (r: Option<Member>)
      requires memberRegistry.Valid()
      reads this, memberRegistry
      ensures r.Some? <==> memberId in memberRegistry.members
      ensures r.Some? ==> r.value == memberRegistry.members[memberId]
    {
      memberRegistry.GetMember(memberId)
    }

    /**
     * updateMemberLevel: false, with nothing changed, for an unknown id; otherwise that member's
     * level becomes newLevel, everything else about it and every other member stays, and the
     * answer is true.
     */
    method UpdateMemberLevel(memberId: Int32, newLevel: MembershipLevel) returns (updated: bool)
      requires Valid()
      modifies memberRegistry.members.Values
      ensures Valid()
      ensures updated <==> memberId in memberRegistry.members
      ensures updated ==> memberRegistry.members[memberId].Data()
                          == old(memberRegistry.members[memberId].Data()).(level := newLevel)
      ensures forall k :: k in memberRegistry.members && k != memberId ==>
                memberRegistry.members[k].Data() == old(memberRegistry.members[k].Data())
      ensures !updated ==> unchanged(memberRegistry.members.Values)
    {
      var member := GetMember(memberId);
      if member.None? {
        return false;
      }
      member.value.SetMembershipLevel(newLevel);
      return true;
    }

    /** getAllMembers: every registered member once, in the registry's iteration order. */
    method GetAllMembers() returns (all: seq<Member>)
      requires Valid()
      ensures |all| == memberRegistry.GetMemberCount()
      ensures forall i :: 0 <= i < |all| ==> all[i].id in memberRegistry.members
                                              && memberRegistry.members[all[i].id] == all[i]
      ensures forall k :: k in memberRegistry.members ==> memberRegistry.members[k] in all
    {
      all := memberRegistry.GetAllMembers();
    }

    /**
     * searchMemberByName: the registered members (listed in the registry's order as `all`) whose
     * lower-cased name contains the lower-cased term, in that order.
     */
    method SearchMemberByName(searchTerm: string) returns (results: seq<Member>, ghost all: seq<Member>)
      requires Valid()
      ensures forall k :: k in memberRegistry.members ==> memberRegistry.members[k] in all
      ensures forall i :: 0 <= i < |all| ==> all[i].id in memberRegistry.members
                                              && memberRegistry.members[all[i].id] == all[i]
      ensures results == Matching(all, searchTerm)
    {
      var allMembers := memberRegistry.GetAllMembers();
      all := allMembers;
      results := [];
      for i := 0 to |allMembers|
        invariant results == Matching(allMembers[..i], searchTerm)
      {
        assert allMembers[..i + 1][..i] == allMembers[..i];
        if Contains(ToLower(allMembers[i].name), ToLower(searchTerm)) {
          results := results + [allMembers[i]];
        }
      }
      assert allMembers[..|allMembers|] == allMembers;
    }
  }
}
