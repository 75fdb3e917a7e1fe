/**
 IPv4 addresses inside the IPv6 space (NetLite/ip/address_v6.ipp): the
 IPv4-mapped form of section 2.5.5.2 of RFC 4291 and the IPv4-compatible form.
 */
module V4MappedAddresses {
  import opened Bytes
  import opened Words
  import opened Circular
  import opened AddressesV4
  import opened AddressesV6
  import V4 = AddressV4Ranges
  import V6 = AddressV6Ranges

  /** `None` stands for the exception `bad_address_cast`. */
  datatype Option<T> = None | Some(value: T)

  const MAPPED_PREFIX: seq<byte> := [0, 0, 0, 0, 0, 0, 0, 0, 0, 0, 0xFF, 0xFF]
  const COMPATIBLE_PREFIX: seq<byte> := [0, 0, 0, 0, 0, 0, 0, 0, 0, 0, 0, 0]

  function V4Mapped(a: AddressV4): AddressV6 {
    AddressV6(MAPPED_PREFIX + ToBytes(a), 0)
  }

  function V4Compatible(a: AddressV4): AddressV6 {
    AddressV6(COMPATIBLE_PREFIX + ToBytes(a), 0)
  }

  predicate IsV4Mapped(a: AddressV6) {
    && (forall i :: 0 <= i < 10 ==> a.bytes[i] == 0)
    && a.bytes[10] == 0xFF && a.bytes[11] == 0xFF
  }

  predicate IsV4Compatible(a: AddressV6) {
    && (forall i :: 0 <= i < 12 ==> a.bytes[i] == 0)
    && !(a.bytes[12] == 0 && a.bytes[13] == 0 && a.bytes[14] == 0
         && (a.bytes[15] == 0 || a.bytes[15] == 1))
  }

  function ToV4(a: AddressV6): Option<AddressV4> {
    if !IsV4Mapped(a) && !IsV4Compatible(a) then None
    else Some(FromBytes([a.bytes[12], a.bytes[13], a.bytes[14], a.bytes[15]]))
  }

  /** make_address_v4 for mapped addresses */
  function MakeAddressV4(a: AddressV6): Option<AddressV4> {
    if !IsV4Mapped(a) then None
    else Some(FromBytes([a.bytes[12], a.bytes[13], a.bytes[14], a.bytes[15]]))
  }

  lemma SplitNumber(a: AddressV6)
    ensures Number(a) == Value(a.bytes[..12]) * 0x1_0000_0000 + Value(a.bytes[12..])
    ensures Value(a.bytes[12..]) < 0x1_0000_0000
  {
    hide Value;
    assert a.bytes == a.bytes[..12] + a.bytes[12..];
    ValueConcat(a.bytes[..12], a.bytes[12..]);
    ValueBound(a.bytes[12..]);
    WordSizes();
  }

  lemma {:induction false} LeadingZeros(s: seq<byte>)
    requires forall i :: 0 <= i < |s| ==> s[i] == 0
    ensures Value(s) == 0
  {
    if |s| > 0 {
      LeadingZeros(s[..|s| - 1]);
    }
  }

  lemma PrefixValues()
    ensures Value(MAPPED_PREFIX) == 0xFFFF && Value(COMPATIBLE_PREFIX) == 0
  {
    LeadingZeros(COMPATIBLE_PREFIX);
    var zeros := MAPPED_PREFIX[..10];
    LeadingZeros(zeros);
    assert MAPPED_PREFIX[..11][..10] == zeros && |MAPPED_PREFIX[..11]| == 11;
    assert Value(MAPPED_PREFIX[..11]) == 256 * Value(zeros) + 0xFF;
    assert Value(MAPPED_PREFIX) == 256 * Value(MAPPED_PREFIX[..11]) + 0xFF;
  }

  lemma MappedNumber(a: AddressV4)
    ensures Number(V4Mapped(a)) == 0xFFFF_0000_0000 + ToUint(a)
    ensures Number(V4Compatible(a)) == ToUint(a)
  {
    hide Value, ToBytes, ToUint;
    PrefixValues();
    BytesAreBigEndian(a);
    var m, c := V4Mapped(a), V4Compatible(a);
    SplitNumber(m);
    SplitNumber(c);
    assert m.bytes[..12] == MAPPED_PREFIX && m.bytes[12..] == ToBytes(a);
    assert c.bytes[..12] == COMPATIBLE_PREFIX && c.bytes[12..] == ToBytes(a);
  }

  lemma PrefixDecides(a: AddressV6, prefix: seq<byte>, v: nat)
    requires |prefix| == 12 && Value(prefix) == v
    ensures a.bytes[..12] == prefix <==>
            v * 0x1_0000_0000 <= Number(a) < v * 0x1_0000_0000 + 0x1_0000_0000
  {
    hide Value;
    SplitNumber(a);
    if Value(a.bytes[..12]) == v {
      ValueInjective(a.bytes[..12], prefix);
    }
  }

  /** The mapped addresses are one block of 2^32 numbers, the compatible ones lie in another, apart from it. */
  lemma BlocksOfTheSpace(a: AddressV6)
    ensures IsV4Mapped(a) <==> 0xFFFF_0000_0000 <= Number(a) <= 0xFFFF_FFFF_FFFF
    ensures IsV4Compatible(a) <==> 2 <= Number(a) <= 0xFFFF_FFFF
  {
    hide Value;
    PrefixValues();
    PrefixDecides(a, MAPPED_PREFIX, 0xFFFF);
    PrefixDecides(a, COMPATIBLE_PREFIX, 0);
    assert IsV4Mapped(a) <==> a.bytes[..12] == MAPPED_PREFIX;
    SplitNumber(a);
    Value4(a.bytes[12..]);
    assert (forall i :: 0 <= i < 12 ==> a.bytes[i] == 0) <==> a.bytes[..12] == COMPATIBLE_PREFIX;
  }

  /** Mapping keeps and reflects the order. */
  lemma MappingEmbedsOrder(a: AddressV4, b: AddressV4)
    ensures AddressesV4.Less(a, b) <==> AddressesV6.Less(V4Mapped(a), V4Mapped(b))
    ensures AddressesV4.Equal(a, b) <==> AddressesV6.Equal(V4Mapped(a), V4Mapped(b))
  {
    hide Number, ToUint, AddressesV6.Less, AddressesV6.Equal;
    MappedNumber(a);
    MappedNumber(b);
    OrderIsLexicographic(V4Mapped(a), V4Mapped(b));
    AddressesV4.TotalOrder(a, b, b);
  }

  /** Stepping up and mapping commute except at 255.255.255.255, where the step leaves the mapped block. */
  lemma MappingCommutesWithNext(a: AddressV4)
    ensures V4Mapped(V4.Next(a)) == V6.Next(V4Mapped(a)) <==> ToUint(a) != 0xFFFF_FFFF
    ensures IsV4Mapped(V6.Next(V4Mapped(a))) <==> ToUint(a) != 0xFFFF_FFFF
  {
    hide *;
    var mapped := V4Mapped(a);
    var after := V6.Next(mapped);
    MappedNumber(a);
    MappedScope(a);
    V6.NumberOfNext(mapped);
    SpaceIsLarge();
    Reduce(Number(mapped) + 1, V6.Space());
    MappedNumber(V4.Next(a));
    MappedScope(V4.Next(a));
    V4.UintOfNext(a);
    BlocksOfTheSpace(after);
    if Number(V4Mapped(V4.Next(a))) == Number(after) {
      V6.SameNumber(V4Mapped(V4.Next(a)), after);
    }
  }

  lemma MappedScope(a: AddressV4)
    ensures V4Mapped(a).scopeId == 0 && V4Compatible(a).scopeId == 0
  {
  }

  lemma SpaceIsLarge()
    ensures V6.Space() > 0x1_0000_0000_0000_0000
  {
    SpaceSize();
  }

  /** A whole IPv4 traversal that does not wrap is, mapped, the IPv6 traversal of the mapped ends. */
  lemma {:induction false} MappingCommutesWithTraversal(a: AddressV4, n: nat)
    requires ToUint(a) + n <= 0xFFFF_FFFF
    ensures V4Mapped(V4.Nth(a, n)) == V6.Nth(V4Mapped(a), n)
  {
    hide ToUint, V4Mapped, V4.Next, V6.Next;
    if n > 0 {
      MappingCommutesWithTraversal(a, n - 1);
      V4.NthAdds(a, n - 1);
      Reduce(ToUint(a) + (n - 1), V4.SPACE);
      MappingCommutesWithNext(V4.Nth(a, n - 1));
    }
  }

  /** Extraction undoes mapping, and mapping again recovers any mapped address with scope id 0. */
  lemma MappingRoundTrip(a: AddressV4, m: AddressV6)
    ensures ToV4(V4Mapped(a)) == Some(a) && MakeAddressV4(V4Mapped(a)) == Some(a)
    ensures IsV4Mapped(m) ==> ToV4(m).Some? && V4Mapped(ToV4(m).value) == m.(scopeId := 0)
    ensures IsV4Mapped(m) ==> MakeAddressV4(m) == ToV4(m)
  {
    hide ToBytes, FromBytes;
    var bytes := ToBytes(a);
    BytesRoundTrip(a, bytes);
    assert bytes == [bytes[0], bytes[1], bytes[2], bytes[3]];
    if IsV4Mapped(m) {
      var tail := [m.bytes[12], m.bytes[13], m.bytes[14], m.bytes[15]];
      BytesRoundTrip(a, tail);
      assert m.bytes == MAPPED_PREFIX + tail;
    }
  }

  /** Which addresses can be converted, and that the last four bytes are what they convert to. */
  lemma ConversionsThrowIff(m: AddressV6)
    ensures MakeAddressV4(m).Some? <==> IsV4Mapped(m)
    ensures ToV4(m).Some? <==> IsV4Mapped(m) || IsV4Compatible(m)
    ensures MakeAddressV4(m).Some? ==> MakeAddressV4(m) == ToV4(m)
    ensures ToV4(m).Some? ==> ToBytes(ToV4(m).value) == m.bytes[12..]
  {
    hide ToBytes, FromBytes;
    var tail := [m.bytes[12], m.bytes[13], m.bytes[14], m.bytes[15]];
    BytesRoundTrip(AddressV4(0), tail);
    assert m.bytes[12..] == tail;
  }

  /** The compatible form is recovered for every address except 0.0.0.0 and 0.0.0.1. */
  lemma CompatibleRoundTrip(a: AddressV4)
    ensures ToV4(V4Compatible(a)) == Some(a) <==> ToUint(a) >= 2
    ensures ToV4(V4Compatible(a)) == None <==> ToUint(a) < 2
  {
    hide ToBytes, FromBytes, ToUint, Number;
    var bytes, c := ToBytes(a), V4Compatible(a);
    BytesRoundTrip(a, bytes);
    assert bytes == [bytes[0], bytes[1], bytes[2], bytes[3]];
    MappedNumber(a);
    BlocksOfTheSpace(c);
    assert c.bytes[12..] == bytes;
  }
}
