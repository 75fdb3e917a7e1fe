/** IPv4 addresses (NetLite/ip/address_v4.hpp, NetLite/ip/address_v4.ipp). */
module AddressesV4 {
  import opened Bytes
  import opened Words

  /** Holds the address as a word in network byte order, as `in_addr` does. */
  datatype AddressV4 = AddressV4(sAddr: u32)

  function FromUint(value: u32): AddressV4 {
    AddressV4(HostToNetworkLong(value))
  }

  function ToUint(a: AddressV4): u32 {
    NetworkToHostLong(a.sAddr)
  }

  /** The bytes are copied into the word unchanged. */
  function FromBytes(bytes: seq<byte>): AddressV4
    requires |bytes| == 4
  {
    AddressV4(LoadLong(bytes))
  }

  function ToBytes(a: AddressV4): (bytes: seq<byte>)
    ensures |bytes| == 4
  {
    StoreLong(a.sAddr)
  }

  /** Equality compares the network-order words. */
  predicate Equal(a: AddressV4, b: AddressV4) {
    a.sAddr == b.sAddr
  }

  /** Ordering compares the host-order integers. */
  predicate Less(a: AddressV4, b: AddressV4) {
    ToUint(a) < ToUint(b)
  }

  predicate GreaterOrEqual(a: AddressV4, b: AddressV4) {
    ToUint(a) >= ToUint(b)
  }

  lemma UintRoundTrip(a: AddressV4, value: u32)
    ensures FromUint(ToUint(a)) == a
    ensures ToUint(FromUint(value)) == value
  {
    hide NetworkToHostLong, HostToNetworkLong;
    LongRoundTrip(a.sAddr);
    LongRoundTrip(value);
  }

  lemma BytesRoundTrip(a: AddressV4, bytes: seq<byte>)
    requires |bytes| == 4
    ensures FromBytes(ToBytes(a)) == a
    ensures ToBytes(FromBytes(bytes)) == bytes
  {
    hide LoadLong, StoreLong;
    LongImage(a.sAddr, bytes);
  }

  /** The byte form is the big-endian form of the integer, on either kind of host. */
  lemma BytesAreBigEndian(a: AddressV4)
    ensures Value(ToBytes(a)) == ToUint(a)
  {
    hide Value, StoreLong, NetworkToHostLong;
    NetworkOrderIsBigEndian(a.sAddr);
  }

  /** Word equality and integer order fit together into one strict total order. */
  lemma TotalOrder(a: AddressV4, b: AddressV4, c: AddressV4)
    ensures Equal(a, b) <==> ToUint(a) == ToUint(b)
    ensures Less(a, b) ==> !Equal(a, b) && !Less(b, a)
    ensures Less(a, b) || Equal(a, b) || Less(b, a)
    ensures Less(a, b) && Less(b, c) ==> Less(a, c)
    ensures GreaterOrEqual(a, b) <==> !Less(a, b)
  {
    hide NetworkToHostLong, HostToNetworkLong;
    LongRoundTrip(a.sAddr);
    LongRoundTrip(b.sAddr);
  }
}
