/**
 Classful IPv4 networks (NetLite/ip/address_v4.ipp); the classes are those of
 section 3.2 of RFC 791.
 */
module ClassfulNetworks {
  import opened Words
  import opened AddressesV4

  predicate IsClassA(a: AddressV4) {
    And(32, ToUint(a), 0x8000_0000) == 0
  }

  predicate IsClassB(a: AddressV4) {
    And(32, ToUint(a), 0xC000_0000) == 0x8000_0000
  }

  predicate IsClassC(a: AddressV4) {
    And(32, ToUint(a), 0xE000_0000) == 0xC000_0000
  }

  predicate IsMulticast(a: AddressV4) {
    And(32, ToUint(a), 0xF000_0000) == 0xE000_0000
  }

  function Netmask(a: AddressV4): AddressV4 {
    if IsClassA(a) then FromUint(0xFF00_0000)
    else if IsClassB(a) then FromUint(0xFFFF_0000)
    else if IsClassC(a) then FromUint(0xFFFF_FF00)
    else FromUint(0xFFFF_FFFF)
  }

  function Broadcast(a: AddressV4, mask: AddressV4): AddressV4 {
    WordOperatorsFit(ToUint(a), ToUint(mask));
    FromUint(Or(32, ToUint(a), Xor(32, ToUint(mask), 0xFFFF_FFFF)))
  }

  /** The two addresses agree on the bits the mask selects. */
  predicate SameNetwork(a: AddressV4, b: AddressV4, mask: AddressV4) {
    And(32, ToUint(a), ToUint(mask)) == And(32, ToUint(b), ToUint(mask))
  }

  lemma {:induction false} OrFits(n: nat, x: nat, y: nat)
    ensures Or(n, x, y) < Pow2(n)
  {
    if n > 0 {
      OrFits(n - 1, x / 2, y / 2);
    }
  }

  lemma WordOperatorsFit(x: u32, y: u32)
    ensures Or(32, x, Xor(32, y, 0xFFFF_FFFF)) < 0x1_0000_0000
  {
    hide Or, Xor;
    OrFits(32, x, Xor(32, y, 0xFFFF_FFFF));
    PowersOfTwo();
  }

  lemma MaskedTops(x: u32)
    ensures And(32, x, 0x8000_0000) == x - x % 0x8000_0000
    ensures And(32, x, 0xC000_0000) == x - x % 0x4000_0000
    ensures And(32, x, 0xE000_0000) == x - x % 0x2000_0000
    ensures And(32, x, 0xF000_0000) == x - x % 0x1000_0000
  {
    hide And, Pow2;
    PowersOfTwo();
    AndLeadingMask(32, 31, x);
    AndLeadingMask(32, 30, x);
    AndLeadingMask(32, 29, x);
    AndLeadingMask(32, 28, x);
  }

  /** The bit tests cut the address space into four consecutive intervals and a remainder. */
  lemma ClassIntervals(a: AddressV4)
    ensures IsClassA(a) <==> ToUint(a) < 0x8000_0000
    ensures IsClassB(a) <==> 0x8000_0000 <= ToUint(a) < 0xC000_0000
    ensures IsClassC(a) <==> 0xC000_0000 <= ToUint(a) < 0xE000_0000
    ensures IsMulticast(a) <==> 0xE000_0000 <= ToUint(a) < 0xF000_0000
  {
    hide And, ToUint;
    MaskedTops(ToUint(a));
  }

  /** How many low bits number the hosts of the address's network. */
  function HostBits(a: AddressV4): nat {
    if ToUint(a) < 0x8000_0000 then 24
    else if ToUint(a) < 0xC000_0000 then 16
    else if ToUint(a) < 0xE000_0000 then 8
    else 0
  }

  lemma MaskOfHostBits(a: AddressV4)
    ensures HostBits(a) <= 24
    ensures ToUint(Netmask(a)) == 0x1_0000_0000 - Pow2(HostBits(a))
  {
    hide And, ToUint, FromUint, Pow2, IsClassA, IsClassB, IsClassC;
    ClassIntervals(a);
    PowersOfTwo();
    assert Pow2(0) == 1 by { PowZero(); }
    UintRoundTrip(a, 0xFF00_0000);
    UintRoundTrip(a, 0xFFFF_0000);
    UintRoundTrip(a, 0xFFFF_FF00);
    UintRoundTrip(a, 0xFFFF_FFFF);
  }

  /** The masks, by the interval an address lies in. */
  lemma Masks(a: AddressV4)
    ensures ToUint(Netmask(a)) == if ToUint(a) < 0x8000_0000 then 0xFF00_0000
                                  else if ToUint(a) < 0xC000_0000 then 0xFFFF_0000
                                  else if ToUint(a) < 0xE000_0000 then 0xFFFF_FF00
                                  else 0xFFFF_FFFF
  {
    hide And, ToUint, FromUint, IsClassA, IsClassB, IsClassC;
    ClassIntervals(a);
    UintRoundTrip(a, 0xFF00_0000);
    UintRoundTrip(a, 0xFFFF_0000);
    UintRoundTrip(a, 0xFFFF_FF00);
    UintRoundTrip(a, 0xFFFF_FFFF);
  }

  /** For every mask, of whatever form, the broadcast address has the address's bits where the mask has ones
      and ones where it has zeros. */
  lemma BroadcastBits(a: AddressV4, mask: AddressV4, i: nat)
    requires i < 32
    ensures Bit(ToUint(Broadcast(a, mask)), i) == if Bit(ToUint(mask), i) == 1 then Bit(ToUint(a), i) else 1
  {
    hide Or, Xor, Pow2, ToUint, FromUint;
    var x, m := ToUint(a), ToUint(mask);
    PowersOfTwo();
    AllOnesBit(32, i);
    XorBit(32, m, 0xFFFF_FFFF, i);
    OrBit(32, x, Xor(32, m, 0xFFFF_FFFF), i);
    WordOperatorsFit(x, m);
    UintRoundTrip(a, Or(32, x, Xor(32, m, 0xFFFF_FFFF)));
  }

  lemma PowZero()
    ensures Pow2(0) == 1
  {
  }

  /** The broadcast address fills the host bits with ones. */
  lemma BroadcastFillsHostBits(a: AddressV4)
    ensures var p := Pow2(HostBits(a));
            ToUint(Broadcast(a, Netmask(a))) == ToUint(a) - ToUint(a) % p + (p - 1)
  {
    hide Or, Xor, Pow2, ToUint, FromUint, Netmask, HostBits;
    var k := HostBits(a);
    MaskOfHostBits(a);
    PowersOfTwo();
    XorAllOnes(32, ToUint(Netmask(a)));
    OrTrailingMask(32, k, ToUint(a));
    WordOperatorsFit(ToUint(a), ToUint(Netmask(a)));
    UintRoundTrip(a, Or(32, ToUint(a), Xor(32, ToUint(Netmask(a)), 0xFFFF_FFFF)));
  }

  lemma SameBlock(x: nat, y: nat, p: nat)
    requires p > 0
    ensures x - x % p == y - y % p <==> x - x % p <= y <= x - x % p + (p - 1)
  {
    if x - x % p <= y <= x - x % p + (p - 1) {
      assert x - x % p == x / p * p;
      RemainderIsUnique(y, p, x / p, y - (x - x % p));
    }
  }

  /** The network of an address is the interval that ends at its broadcast address
      and holds `~mask + 1` addresses. */
  lemma NetworkIsInterval(a: AddressV4, b: AddressV4)
    ensures var mask := Netmask(a);
            var top := ToUint(Broadcast(a, mask));
            var inverse := 0xFFFF_FFFF - ToUint(mask);
            SameNetwork(a, b, mask) <==> top - inverse <= ToUint(b) <= top
  {
    hide And, Pow2, ToUint, Broadcast, Netmask, HostBits;
    var k := HostBits(a);
    PowersOfTwo();
    MaskOfHostBits(a);
    BroadcastFillsHostBits(a);
    AndLeadingMask(32, k, ToUint(a));
    AndLeadingMask(32, k, ToUint(b));
    SameBlock(ToUint(a), ToUint(b), Pow2(k));
  }

  lemma NetworkStaysInClass(a: AddressV4, b: AddressV4)
    requires SameNetwork(a, b, Netmask(a))
    ensures HostBits(a) == HostBits(b)
  {
    hide And, Pow2, ToUint, Netmask;
    var k := HostBits(a);
    PowersOfTwo();
    PowZero();
    MaskOfHostBits(a);
    AndLeadingMask(32, k, ToUint(a));
    AndLeadingMask(32, k, ToUint(b));
  }

  /** Every member of a network computes the same mask and the same broadcast address. */
  lemma NetworkAgrees(a: AddressV4, b: AddressV4)
    requires SameNetwork(a, b, Netmask(a))
    ensures Netmask(b) == Netmask(a)
    ensures Broadcast(b, Netmask(b)) == Broadcast(a, Netmask(a))
  {
    hide And, Pow2, ToUint, FromUint, Broadcast, Netmask, HostBits;
    var k := HostBits(a);
    NetworkStaysInClass(a, b);
    MaskOfHostBits(a);
    MaskOfHostBits(b);
    BroadcastFillsHostBits(a);
    BroadcastFillsHostBits(b);
    PowersOfTwo();
    AndLeadingMask(32, k, ToUint(a));
    AndLeadingMask(32, k, ToUint(b));
    UintRoundTrip(Netmask(a), 0);
    UintRoundTrip(Netmask(b), 0);
    UintRoundTrip(Broadcast(a, Netmask(a)), 0);
    UintRoundTrip(Broadcast(b, Netmask(b)), 0);
  }

  /** The integers from `low` on, `size` of them. */
  ghost function Interval(low: int, size: nat): (s: set<int>)
    ensures |s| == size && forall v :: v in s <==> low <= v < low + size
  {
    if size == 0 then {} else Interval(low, size - 1) + {low + size - 1}
  }

  /** The members of a network, as host-order integers. */
  ghost function Members(a: AddressV4): set<int> {
    set v: int | 0 <= v < 0x1_0000_0000 && SameNetwork(a, FromUint(v), Netmask(a))
  }

  /** A network has `~mask + 1` members, and its greatest is the broadcast address. */
  lemma NetworkSize(a: AddressV4)
    ensures |Members(a)| == 0xFFFF_FFFF - ToUint(Netmask(a)) + 1
    ensures ToUint(Broadcast(a, Netmask(a))) in Members(a)
    ensures forall v :: v in Members(a) ==> v <= ToUint(Broadcast(a, Netmask(a)))
    ensures ToUint(a) in Members(a)
  {
    hide ToUint, FromUint, Broadcast, Netmask, SameNetwork;
    var top := ToUint(Broadcast(a, Netmask(a)));
    var inverse := 0xFFFF_FFFF - ToUint(Netmask(a));
    NetworkIsInterval(a, a);
    UintRoundTrip(a, 0);
    assert SameNetwork(a, a, Netmask(a)) by { Reflexive(a); }
    forall v | 0 <= v < 0x1_0000_0000
      ensures SameNetwork(a, FromUint(v), Netmask(a)) <==> top - inverse <= v <= top
    {
      NetworkIsInterval(a, FromUint(v));
      UintRoundTrip(a, v);
    }
    assert top - inverse >= 0 by { BottomOfNetwork(a); }
    assert Members(a) == Interval(top - inverse, inverse + 1);
  }

  lemma Reflexive(a: AddressV4)
    ensures SameNetwork(a, a, Netmask(a))
  {
  }

  lemma BottomOfNetwork(a: AddressV4)
    ensures ToUint(Broadcast(a, Netmask(a))) >= 0xFFFF_FFFF - ToUint(Netmask(a))
  {
    hide Pow2, ToUint, Broadcast, Netmask, HostBits;
    MaskOfHostBits(a);
    BroadcastFillsHostBits(a);
  }
}
