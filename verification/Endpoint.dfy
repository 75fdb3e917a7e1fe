/** IP endpoints (NetLite/ip/endpoint.hpp, NetLite/ip/endpoint.ipp). */
module Endpoints {
  import opened Bytes
  import opened Words
  import opened AddressesV4
  import opened AddressesV6
  import A = Addresses

  type Address = A.Address

  /** The socket address union, discriminated by its family field; ports and
      the IPv4 address are words in network byte order. */
  datatype SockAddr =
    | SockAddrV4(sinPort: u16, sinAddr: u32)
    | SockAddrV6(sin6Port: u16, sin6FlowInfo: u32, sin6Addr: Bytes16, sin6ScopeId: u32)

  const INADDR_ANY: u32 := 0

  /** The socket address for an IP address and a port. */
  function Make(addr: Address, port: u16): SockAddr {
    if addr.IsV4() then
      SockAddrV4(HostToNetworkShort(port), HostToNetworkLong(ToUint(addr.ToV4().value)))
    else
      var v6 := addr.ToV6().value;
      SockAddrV6(HostToNetworkShort(port), 0, v6.bytes, v6.scopeId % 0x1_0000_0000)
  }

  function PortOf(data: SockAddr): u16 {
    if data.SockAddrV4? then NetworkToHostShort(data.sinPort)
    else NetworkToHostShort(data.sin6Port)
  }

  function AddressOf(data: SockAddr): Address {
    if data.SockAddrV4? then A.FromV4(FromUint(NetworkToHostLong(data.sinAddr)))
    else A.FromV6(AddressV6(data.sin6Addr, data.sin6ScopeId))
  }

  datatype Setter = SetPort(port: u16) | SetAddress(addr: Address)

  function Apply(data: SockAddr, s: Setter): SockAddr {
    match s
    case SetPort(port) =>
      if data.SockAddrV4? then data.(sinPort := HostToNetworkShort(port))
      else data.(sin6Port := HostToNetworkShort(port))
    case SetAddress(addr) => Make(addr, PortOf(data))
  }

  function ApplyAll(data: SockAddr, setters: seq<Setter>): SockAddr {
    if |setters| == 0 then data
    else Apply(ApplyAll(data, setters[..|setters| - 1]), setters[|setters| - 1])
  }

  class Endpoint {
    var data: SockAddr

    constructor ()
      ensures PortOf(data) == 0 && AddressOf(data) == A.FromV4(A.UNSPECIFIED_V4)
    {
      data := SockAddrV4(0, INADDR_ANY);
      new;
      ZeroPort();
      LongRoundTrip(INADDR_ANY);
    }

    /** Any family number other than that of IPv4 makes an IPv6 endpoint. */
    constructor FromFamily(family: int, inet: int, port: u16)
      ensures PortOf(data) == port
      ensures AddressOf(data) == if family == inet then A.FromV4(A.UNSPECIFIED_V4)
                                 else A.FromV6(A.UNSPECIFIED_V6)
    {
      if family == inet {
        data := SockAddrV4(HostToNetworkShort(port), INADDR_ANY);
      } else {
        data := SockAddrV6(HostToNetworkShort(port), 0, A.UNSPECIFIED_V6.bytes, 0);
      }
      new;
      hide HostToNetworkShort, NetworkToHostShort, HostToNetworkLong, NetworkToHostLong;
      ShortRoundTrip(port);
      LongRoundTrip(INADDR_ANY);
    }

    constructor FromAddress(addr: Address, port: u16)
      ensures data == Make(addr, port)
      ensures Port() == port && Address() == Stored(addr)
      ensures PortBytes(data) == [port / 0x100, port % 0x100] && data.SockAddrV4? == addr.IsV4()
    {
      data := Make(addr, port);
      new;
      MakeReadsBack(addr, port);
      PortLiesBigEndian(data);
      AddressLiesAsGiven(addr, port);
      hide PortOf, AddressOf, Stored, Make;
    }

    function Port(): u16
      reads this
    {
      PortOf(data)
    }

    function Address(): A.Address
      reads this
    {
      AddressOf(data)
    }

    method SetPort(port: u16)
      modifies this
      ensures data == Apply(old(data), Setter.SetPort(port))
      ensures Port() == port && Address() == old(Address())
      ensures PortBytes(data) == [port / 0x100, port % 0x100] && data.SockAddrV4? == old(data.SockAddrV4?)
    {
      ApplyReadsBack(data, Setter.SetPort(port));
      hide PortOf, AddressOf, Stored, HostToNetworkShort, PortBytes;
      if data.SockAddrV4? {
        data := data.(sinPort := HostToNetworkShort(port));
      } else {
        data := data.(sin6Port := HostToNetworkShort(port));
      }
      PortLiesBigEndian(data);
    }

    method SetAddress(addr: Address)
      modifies this
      ensures data == Apply(old(data), Setter.SetAddress(addr))
      ensures Address() == Stored(addr) && Port() == old(Port())
    {
      ApplyReadsBack(data, Setter.SetAddress(addr));
      hide PortOf, AddressOf, Stored, Make;
      var tmp := new Endpoint.FromAddress(addr, Port());
      data := tmp.data;
    }
  }

  /** The two bytes of the port in memory. */
  function PortBytes(data: SockAddr): seq<byte> {
    StoreShort(if data.SockAddrV4? then data.sinPort else data.sin6Port)
  }

  /** In either family the port lies in memory most significant byte first, on any host. */
  lemma PortLiesBigEndian(data: SockAddr)
    ensures PortBytes(data) == [PortOf(data) / 0x100, PortOf(data) % 0x100]
  {
    hide StoreShort, NetworkToHostShort;
    ShortNetworkOrderIsBigEndian(if data.SockAddrV4? then data.sinPort else data.sin6Port);
  }

  /** What lies in memory for an address: its own bytes, and for IPv6 no flow information and 32 bits of scope. */
  lemma AddressLiesAsGiven(addr: Address, port: u16)
    ensures addr.IsV4() ==> Make(addr, port).SockAddrV4? && StoreLong(Make(addr, port).sinAddr) == ToBytes(addr.v4)
    ensures !addr.IsV4() ==>
              var data := Make(addr, port);
              && data.SockAddrV6? && data.sin6Addr == addr.v6.bytes && data.sin6FlowInfo == 0
              && data.sin6ScopeId == addr.v6.scopeId % 0x1_0000_0000
  {
    hide HostToNetworkShort, HostToNetworkLong, NetworkToHostLong, StoreLong;
    LongRoundTrip(addr.v4.sAddr);
  }

  lemma ZeroPort()
    ensures NetworkToHostShort(0) == 0
  {
    hide StoreShort, HostToNetworkShort, NetworkToHostShort, LoadShort;
    ShortRoundTrip(0);
    assert HostToNetworkShort(0) == 0 by { LoadZero(); }
  }

  lemma LoadZero()
    ensures HostToNetworkShort(0) == 0
  {
  }

  /** What an endpoint stores of an address: the scope id keeps its low 32 bits. */
  function Stored(addr: Address): Address {
    if addr.IsV4() then A.FromV4(addr.v4)
    else A.FromV6(addr.v6.(scopeId := addr.v6.scopeId % 0x1_0000_0000))
  }

  lemma MakeReadsBack(addr: Address, port: u16)
    ensures PortOf(Make(addr, port)) == port
    ensures AddressOf(Make(addr, port)) == Stored(addr)
  {
    hide HostToNetworkShort, NetworkToHostShort, HostToNetworkLong, NetworkToHostLong, ToUint, FromUint;
    ShortRoundTrip(port);
    LongRoundTrip(ToUint(addr.v4));
    UintRoundTrip(addr.v4, 0);
  }

  /** The stored address equals the one given exactly when its scope id fits 32 bits. */
  lemma StoredIsFaithful(addr: Address)
    ensures A.Equal(Stored(addr), addr) <==> addr.IsV4() || addr.v6.scopeId < 0x1_0000_0000
  {
    hide Number, ToUint;
    A.OrderIsLexicographic(Stored(addr), addr);
  }

  lemma ApplyReadsBack(data: SockAddr, s: Setter)
    ensures PortOf(Apply(data, s)) == if s.SetPort? then s.port else PortOf(data)
    ensures AddressOf(Apply(data, s)) == if s.SetAddress? then Stored(s.addr) else AddressOf(data)
  {
    hide HostToNetworkShort, NetworkToHostShort, FromUint, NetworkToHostLong, Make, Stored;
    match s
    case SetPort(port) => ShortRoundTrip(port);
    case SetAddress(addr) => MakeReadsBack(addr, PortOf(data));
  }

  /** After any run of setters the port is the last one set; `last` is the index of that call, or -1. */
  lemma {:induction false} LastPortWins(data: SockAddr, setters: seq<Setter>, last: int)
    requires -1 <= last < |setters| && (last >= 0 ==> setters[last].SetPort?)
    requires forall j :: last < j < |setters| ==> !setters[j].SetPort?
    ensures PortOf(ApplyAll(data, setters)) == if last < 0 then PortOf(data) else setters[last].port
  {
    hide PortOf, AddressOf, Stored, Apply;
    var n := |setters| - 1;
    if n >= 0 {
      ApplyReadsBack(ApplyAll(data, setters[..n]), setters[n]);
      if last < n {
        LastPortWins(data, setters[..n], last);
      }
    }
  }

  /** Likewise the address, across switches of family. */
  lemma {:induction false} LastAddressWins(data: SockAddr, setters: seq<Setter>, last: int)
    requires -1 <= last < |setters| && (last >= 0 ==> setters[last].SetAddress?)
    requires forall j :: last < j < |setters| ==> !setters[j].SetAddress?
    ensures AddressOf(ApplyAll(data, setters)) ==
            if last < 0 then AddressOf(data) else Stored(setters[last].addr)
  {
    hide PortOf, AddressOf, Stored, Apply;
    var n := |setters| - 1;
    if n >= 0 {
      ApplyReadsBack(ApplyAll(data, setters[..n]), setters[n]);
      if last < n {
        LastAddressWins(data, setters[..n], last);
      }
    }
  }

  predicate Equal(e: SockAddr, f: SockAddr) {
    A.Equal(AddressOf(e), AddressOf(f)) && PortOf(e) == PortOf(f)
  }

  predicate Less(e: SockAddr, f: SockAddr) {
    if A.Less(AddressOf(e), AddressOf(f)) then true
    else if !A.Equal(AddressOf(e), AddressOf(f)) then false
    else PortOf(e) < PortOf(f)
  }

  /** Endpoints compare lexicographically on (family, number, scope id, port). */
  lemma OrderIsLexicographic(e: SockAddr, f: SockAddr)
    ensures var k, l := A.KeyOf(AddressOf(e)), A.KeyOf(AddressOf(f));
            && (Less(e, f) <==> A.KeyLess(k, l) || (k == l && PortOf(e) < PortOf(f)))
            && (Equal(e, f) <==> k == l && PortOf(e) == PortOf(f))
  {
    hide A.Less, A.Equal, A.KeyOf, AddressOf, PortOf;
    A.OrderIsLexicographic(AddressOf(e), AddressOf(f));
  }

  lemma TotalOrder(e: SockAddr, f: SockAddr, g: SockAddr)
    ensures Less(e, f) ==> !Equal(e, f) && !Less(f, e)
    ensures Less(e, f) || Equal(e, f) || Less(f, e)
    ensures Less(e, f) && Less(f, g) ==> Less(e, g)
  {
    hide Less, Equal, A.KeyOf, AddressOf, PortOf;
    OrderIsLexicographic(e, f);
    OrderIsLexicographic(f, e);
    OrderIsLexicographic(f, g);
    OrderIsLexicographic(e, g);
  }
}
