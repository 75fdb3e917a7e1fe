/** Version-independent addresses (NetLite/ip/address.hpp, NetLite/ip/address.ipp). */
module Addresses {
  import opened AddressesV4
  import opened AddressesV6
  import opened V4MappedAddresses

  datatype Family = Ipv4 | Ipv6

  const UNSPECIFIED_V4 := AddressV4(0)
  const UNSPECIFIED_V6 := AddressV6([0, 0, 0, 0, 0, 0, 0, 0, 0, 0, 0, 0, 0, 0, 0, 0], 0)

  /** A family tag and both addresses, of which only the tagged one matters. */
  datatype Address = Address(family: Family, v4: AddressV4, v6: AddressV6)
  {
    predicate IsV4() {
      family.Ipv4?
    }

    /** `None` stands for the exception `bad_address_cast`. */
    function ToV4(): Option<AddressV4> {
      if family != Ipv4 then None else Some(v4)
    }

    function ToV6(): Option<AddressV6> {
      if family != Ipv6 then None else Some(v6)
    }
  }

  function FromV4(a: AddressV4): Address {
    Address(Ipv4, a, UNSPECIFIED_V6)
  }

  function FromV6(a: AddressV6): Address {
    Address(Ipv6, UNSPECIFIED_V4, a)
  }

  predicate Equal(a: Address, b: Address) {
    if a.family != b.family then false
    else if a.family == Ipv6 then AddressesV6.Equal(a.v6, b.v6)
    else AddressesV4.Equal(a.v4, b.v4)
  }

  function Rank(f: Family): nat {
    if f == Ipv4 then 0 else 1
  }

  predicate Less(a: Address, b: Address) {
    if Rank(a.family) < Rank(b.family) then true
    else if Rank(a.family) > Rank(b.family) then false
    else if a.family == Ipv6 then AddressesV6.Less(a.v6, b.v6)
    else AddressesV4.Less(a.v4, b.v4)
  }

  /** What comparison sees of an address: family, number, scope id. */
  datatype Key = Key(family: nat, number: nat, scope: nat)

  ghost function KeyOf(a: Address): Key {
    if a.family == Ipv4 then Key(0, ToUint(a.v4), 0) else Key(1, Number(a.v6), a.v6.scopeId)
  }

  ghost predicate KeyLess(k: Key, l: Key) {
    || k.family < l.family
    || (k.family == l.family && k.number < l.number)
    || (k.family == l.family && k.number == l.number && k.scope < l.scope)
  }

  /** The comparison is lexicographic on (family, number, scope id), and equality is equality of all three. */
  lemma OrderIsLexicographic(a: Address, b: Address)
    ensures Less(a, b) <==> KeyLess(KeyOf(a), KeyOf(b))
    ensures Equal(a, b) <==> KeyOf(a) == KeyOf(b)
  {
    hide Number, ToUint, AddressesV6.Less, AddressesV6.Equal;
    AddressesV6.OrderIsLexicographic(a.v6, b.v6);
    AddressesV4.TotalOrder(a.v4, b.v4, b.v4);
  }

  lemma TotalOrder(a: Address, b: Address, c: Address)
    ensures Less(a, b) ==> !Equal(a, b) && !Less(b, a)
    ensures Less(a, b) || Equal(a, b) || Less(b, a)
    ensures Less(a, b) && Less(b, c) ==> Less(a, c)
    ensures Equal(a, b) && Less(b, c) ==> Less(a, c)
    ensures Less(a, b) && Equal(b, c) ==> Less(a, c)
  {
    hide Less, Equal, KeyOf;
    OrderIsLexicographic(a, b);
    OrderIsLexicographic(b, a);
    OrderIsLexicographic(b, c);
    OrderIsLexicographic(a, c);
  }

  /** Every IPv4 address comes before every IPv6 address; within a family numbers decide, then scope ids. */
  lemma FamiliesAreApart(a: Address, b: Address)
    ensures a.family == Ipv4 && b.family == Ipv6 ==> Less(a, b) && !Equal(a, b)
    ensures a.family == b.family == Ipv4 ==>
              (Less(a, b) <==> ToUint(a.v4) < ToUint(b.v4)) && (Equal(a, b) <==> ToUint(a.v4) == ToUint(b.v4))
    ensures a.family == b.family == Ipv6 ==>
              && (Less(a, b) <==> Number(a.v6) < Number(b.v6)
                                  || (Number(a.v6) == Number(b.v6) && a.v6.scopeId < b.v6.scopeId))
              && (Equal(a, b) <==> a.v6 == b.v6)
  {
    hide Number, ToUint, AddressesV6.Less, AddressesV6.Equal;
    AddressesV6.OrderIsLexicographic(a.v6, b.v6);
    AddressesV4.TotalOrder(a.v4, b.v4, b.v4);
  }

  /** A cast to the family an address was made with succeeds and gives it back, to the other it throws. */
  lemma CastsAreExact(a: AddressV4, b: AddressV6)
    ensures FromV4(a).family == Ipv4 && FromV4(a).ToV4() == Some(a) && FromV4(a).ToV6() == None
    ensures FromV6(b).family == Ipv6 && FromV6(b).ToV6() == Some(b) && FromV6(b).ToV4() == None
    ensures FromV4(a).v6 == AddressV6([0, 0, 0, 0, 0, 0, 0, 0, 0, 0, 0, 0, 0, 0, 0, 0], 0)
    ensures FromV6(b).v4 == FromBytes([0, 0, 0, 0])
  {
    hide ToBytes, FromBytes;
    UnspecifiedBytes();
    BytesRoundTrip(UNSPECIFIED_V4, [0, 0, 0, 0]);
  }

  lemma UnspecifiedBytes()
    ensures ToBytes(UNSPECIFIED_V4) == [0, 0, 0, 0]
  {
  }

  /** An address variable, overwritten by the assignment operators. */
  class AddressObject {
    var family: Family
    var v4: AddressV4
    var v6: AddressV6

    function Value(): Address
      reads this
    {
      Address(family, v4, v6)
    }

    constructor ()
      ensures Value() == FromV4(UNSPECIFIED_V4)
    {
      family, v4, v6 := Ipv4, UNSPECIFIED_V4, UNSPECIFIED_V6;
    }

    method Assign(other: AddressObject)
      modifies this
      ensures Value() == old(other.Value()) && other.Value() == old(other.Value())
    {
      family := other.family;
      v4 := other.v4;
      v6 := other.v6;
    }

    method AssignV4(a: AddressV4)
      modifies this
      ensures Value() == FromV4(a)
      ensures family == Ipv4 && v4 == a && v6 == UNSPECIFIED_V6
    {
      family := Ipv4;
      v4 := a;
      v6 := UNSPECIFIED_V6;
    }

    method AssignV6(a: AddressV6)
      modifies this
      ensures Value() == FromV6(a)
      ensures family == Ipv6 && v4 == UNSPECIFIED_V4 && v6 == a
    {
      family := Ipv6;
      v4 := UNSPECIFIED_V4;
      v6 := a;
    }
  }
}
