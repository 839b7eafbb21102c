/** A club member: a fixed id, contact fields, a tier and the ids of the member's rentals. */
module MemberModel {
  import opened Domain
  import opened Text

  datatype MemberData = MemberData(
    id: Int32,
    name: string,
    email: string,
    phone: string,
    level: MembershipLevel,
    history: seq<string>)

  class Member {
    const id: Int32
    var name: string
    var email: string
    var phone: string
    var level: MembershipLevel
    /** getRentalHistory hands out this list itself; here it is read through Data(). */
    var history: seq<string>

    function Data(): MemberData
      reads this
    {
      MemberData(id, name, email, phone, level, history)
    }

    /** A new member has no rentals yet. */
    constructor (id: Int32, name: string, email: string, phone: string, level: MembershipLevel)
      ensures Data() == MemberData(id, name, email, phone, level, [])
    {
      this.id := id;
      this.name := name;
      this.email := email;
      this.phone := phone;
      this.level := level;
      this.history := [];
    }

    /** The id goes on the end of the history; earlier entries keep their places. */
    method AddRental(rentalId: string)
      modifies this`history
      ensures Data() == old(Data()).(history := old(history) + [rentalId])
    {
      history := history + [rentalId];
    }

    method SetMembershipLevel(l: MembershipLevel)
      modifies this`level
      ensures Data() == old(Data()).(level := l)
    {
      level := l;
    }

    method SetName(n: string)
      modifies this`name
      ensures Data() == old(Data()).(name := n)
    {
      name := n;
    }

    method SetEmail(e: string)
      modifies this`email
      ensures Data() == old(Data()).(email := e)
    {
      email := e;
    }

    method SetPhone(p: string)
      modifies this`phone
      ensures Data() == old(Data()).(phone := p)
    {
      phone := p;
    }
  }
}
