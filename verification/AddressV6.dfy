/** IPv6 addresses (NetLite/ip/address_v6.hpp, NetLite/ip/address_v6.ipp). */
module AddressesV6 {
  import opened Bytes

  type Bytes16 = s: seq<byte> | |s| == 16 witness seq(16, _ => 0)
  type u64 = x: int | 0 <= x < 0x1_0000_0000_0000_0000

  /** The bytes in network order, and the scope id as a 64-bit `unsigned long`. */
  datatype AddressV6 = AddressV6(bytes: Bytes16, scopeId: u64)

  /** The address as a 128-bit number. */
  function Number(a: AddressV6): nat {
    Value(a.bytes)
  }

  predicate Equal(a: AddressV6, b: AddressV6) {
    Memcmp(a.bytes, b.bytes) == 0 && a.scopeId == b.scopeId
  }

  predicate Less(a: AddressV6, b: AddressV6) {
    var result := Memcmp(a.bytes, b.bytes);
    if result < 0 then true
    else if result > 0 then false
    else a.scopeId < b.scopeId
  }

  predicate GreaterOrEqual(a: AddressV6, b: AddressV6) {
    !Less(a, b)
  }

  lemma SpaceSize()
    ensures Pow256(16) == 0x1_0000_0000_0000_0000_0000_0000_0000_0000
  {
    assert Pow256(4) == 0x1_0000_0000;
    assert Pow256(8) == 0x1_0000_0000_0000_0000;
    assert Pow256(12) == 0x1_0000_0000_0000_0000_0000_0000;
  }

  /** The byte comparison with the scope id as tie-break is the order on (number, scope id). */
  lemma OrderIsLexicographic(a: AddressV6, b: AddressV6)
    ensures Less(a, b) <==>
            Number(a) < Number(b) || (Number(a) == Number(b) && a.scopeId < b.scopeId)
    ensures Equal(a, b) <==> Number(a) == Number(b) && a.scopeId == b.scopeId
    ensures Equal(a, b) <==> a == b
  {
    MemcmpOrdersValues(a.bytes, b.bytes);
  }

  lemma TotalOrder(a: AddressV6, b: AddressV6, c: AddressV6)
    ensures Less(a, b) ==> !Equal(a, b) && !Less(b, a)
    ensures Less(a, b) || Equal(a, b) || Less(b, a)
    ensures Less(a, b) && Less(b, c) ==> Less(a, c)
  {
    OrderIsLexicographic(a, b);
    OrderIsLexicographic(b, a);
    OrderIsLexicographic(b, c);
    OrderIsLexicographic(a, c);
  }
}
