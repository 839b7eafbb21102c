/** The member store: members keyed by their own id. */
module RegistryModel {
  import opened Wrappers
  import opened MemberModel
  import opened Text

  class MemberRegistry {
    var members: map<Int32, Member>

    /** Every member is filed under its own id (the id is final). */
    ghost predicate Valid()
      reads this
    {
      forall k :: k in members ==> members[k].id == k
    }

    /** The state of every registered member, by id. */
    function Directory(): (s: map<Int32, MemberData>)
      reads this, members.Values
      ensures s.Keys == members.Keys
    {
      map k | k in members :: members[k].Data()
    }

    /** The registered members are, id by id, in the states `directory` records. */
    ghost predicate Mirrors(directory: map<Int32, MemberData>)
      reads this, members.Values
    {
      members.Keys == directory.Keys && forall k :: k in members ==> members[k].Data() == directory[k]
    }

    /** member.addRental on a registered member: the mirrored directory changes at that member only. */
    method AddRentalOf(m: Member, rentalId: string, ghost directory: map<Int32, MemberData>)
      requires Valid() && Mirrors(directory) && m.id in members && members[m.id] == m
      modifies m`history
      ensures Mirrors(directory[m.id := directory[m.id].(history := directory[m.id].history + [rentalId])])
    {
      m.AddRental(rentalId);
    }

    /** Directory() is the one map the members mirror. */
    lemma MirrorsDirectory(directory: map<Int32, MemberData>)
      ensures Mirrors(directory) <==> directory == Directory()
    {
    }

    constructor ()
      ensures Valid() && members == map[]
    {
      members := map[];
    }

    /** Files the member under its id, replacing any member that had that id. */
    method AddMember(member: Member)
      requires Valid()
      modifies this
      ensures Valid()
      ensures members == old(members)[member.id := member]
      ensures GetMember(member.id) == Some(member)
      ensures GetMemberCount() == old(GetMemberCount()) + (if member.id in old(members) then 0 else 1)
    {
      members := members[member.id := member];
    }

    /** The member with this id, or None. */
    function GetMember(memberId: Int32): (r: Option<Member>)
      requires Valid()
      reads this
      ensures r.Some? <==> memberId in members
      ensures r.Some? ==> r.value == members[memberId] && r.value.id == memberId
    {
      if memberId in members then Some(members[memberId]) else None
    }

    /** True exactly when the id was present; afterwards it is absent and the rest is untouched. */
    method RemoveMember(memberId: Int32) returns (removed: bool)
      requires Valid()
      modifies this
      ensures Valid()
      ensures removed <==> memberId in old(members)
      ensures members == old(members) - {memberId}
      ensures GetMemberCount() == old(GetMemberCount()) - (if removed then 1 else 0)
    {
      if memberId in members {
        members := members - {memberId};
        removed := true;
      } else {
        removed := false;
      }
    }

    /** The number of registered members; AddMember and RemoveMember say how it moves. */
    function GetMemberCount(): nat
      reads this
    {
      |members.Keys|
    }

    /**
     * The registered members as a list, in the map's iteration order (which the model leaves open):
     * each member exactly once, so the length is the member count.
     */
    method GetAllMembers() returns (all: seq<Member>)
      requires Valid()
      ensures |all| == GetMemberCount()
      ensures forall i :: 0 <= i < |all| ==> all[i].id in members && members[all[i].id] == all[i]
      ensures forall k :: k in members ==> members[k] in all
      ensures forall i, j :: 0 <= i < j < |all| ==> all[i] != all[j]
    {
      var rest := members.Values;
      ghost var left := members.Keys;
      all := [];
      while rest != {}
        invariant left <= members.Keys
        invariant forall k :: k in left ==> members[k] in rest
        invariant forall v :: v in rest ==> v.id in left && members[v.id] == v
        invariant |all| + |left| == |members.Keys|
        invariant forall i :: 0 <= i < |all| ==> all[i].id in members && members[all[i].id] == all[i] && all[i].id !in left
        invariant forall k :: k in members && k !in left ==> members[k] in all
        invariant forall i, j :: 0 <= i < j < |all| ==> all[i].id != all[j].id
        decreases |rest|
      {
        var v :| v in rest;
        all := all + [v];
        rest := rest - {v};
        left := left - {v.id};
      }
      assert left == {};
    }
  }
}
