/**
 IPv4 iterators and ranges (NetLite/ip/address_v4_iterator.hpp,
 NetLite/ip/address_v4_range.hpp).
 */
module AddressV4Ranges {
  import opened Words
  import opened AddressesV4
  import opened Circular

  const SPACE := 0x1_0000_0000

  /** The address one above `a`; 255.255.255.255 is followed by 0.0.0.0. */
  function Next(a: AddressV4): AddressV4 {
    FromUint((ToUint(a) + 1) % SPACE)
  }

  function Previous(a: AddressV4): AddressV4 {
    FromUint((ToUint(a) - 1) % SPACE)
  }

  function Nth(a: AddressV4, n: nat): AddressV4 {
    if n == 0 then a else Next(Nth(a, n - 1))
  }

  class AddressV4Iterator {
    var address: AddressV4

    constructor (address: AddressV4)
      ensures this.address == address
    {
      this.address := address;
    }

    /** operator++ */
    method Increment()
      modifies this
      ensures address == Next(old(address))
    {
      hide ToUint, FromUint, And;
      FullMask((ToUint(address) + 1) % SPACE);
      address := FromUint(And(32, (ToUint(address) + 1) % SPACE, 0xFFFF_FFFF));
    }

    /** operator-- */
    method Decrement()
      modifies this
      ensures address == Previous(old(address))
    {
      hide ToUint, FromUint, And;
      FullMask((ToUint(address) - 1) % SPACE);
      address := FromUint(And(32, (ToUint(address) - 1) % SPACE, 0xFFFF_FFFF));
    }

    /** operator++(int): the copy stays where this iterator was. */
    method PostIncrement() returns (before: AddressV4Iterator)
      modifies this
      ensures fresh(before) && before.address == old(address)
      ensures address == Next(old(address))
    {
      before := new AddressV4Iterator(address);
      Increment();
    }

    /** operator--(int) */
    method PostDecrement() returns (before: AddressV4Iterator)
      modifies this
      ensures fresh(before) && before.address == old(address)
      ensures address == Previous(old(address))
    {
      before := new AddressV4Iterator(address);
      Decrement();
    }
  }

  lemma FullMask(x: u32)
    ensures And(32, x, 0xFFFF_FFFF) == x
  {
    PowersOfTwo();
    AndLeadingMask(32, 0, x);
    assert x % 1 == 0;
  }

  lemma UintOfNext(a: AddressV4)
    ensures ToUint(Next(a)) == if ToUint(a) == 0xFFFF_FFFF then 0 else ToUint(a) + 1
  {
    hide ToUint, FromUint;
    Reduce(ToUint(a) + 1, SPACE);
    UintRoundTrip(a, (ToUint(a) + 1) % SPACE);
  }

  lemma NextAndPreviousUndo(a: AddressV4)
    ensures Previous(Next(a)) == a && Next(Previous(a)) == a
  {
    hide ToUint, FromUint;
    UintRoundTrip(a, (ToUint(a) + 1) % SPACE);
    UintRoundTrip(a, (ToUint(a) - 1) % SPACE);
  }

  lemma {:induction false} NthAdds(a: AddressV4, n: nat)
    ensures ToUint(Nth(a, n)) == (ToUint(a) + n) % SPACE
  {
    hide ToUint, FromUint;
    if n > 0 {
      NthAdds(a, n - 1);
      StepAgain(ToUint(a), n - 1, SPACE);
      UintRoundTrip(a, (ToUint(Nth(a, n - 1)) + 1) % SPACE);
    }
  }

  lemma NthMeets(a: AddressV4, b: AddressV4, n: nat)
    ensures Nth(a, n) == b <==> n % SPACE == (ToUint(b) - ToUint(a)) % SPACE
  {
    hide ToUint, FromUint;
    NthAdds(a, n);
    ArrivesAt(ToUint(a), ToUint(b), n, SPACE);
    UintRoundTrip(b, 0);
    UintRoundTrip(Nth(a, n), 0);
  }

  /** A half-open range; iterators are represented by the address they point to. */
  datatype AddressV4Range = AddressV4Range(first: AddressV4, last: AddressV4)
  {
    /** Unsigned 32-bit subtraction. */
    function Size(): u32 {
      (ToUint(last) - ToUint(first)) % SPACE
    }

    predicate Empty() {
      Size() == 0
    }

    function Find(a: AddressV4): AddressV4 {
      if GreaterOrEqual(a, first) && Less(a, last) then a else last
    }

    /** The address is met by stepping from `first` before `last` is reached. */
    ghost predicate Visits(a: AddressV4) {
      exists n: nat :: n < Size() && Nth(first, n) == a
    }
  }

  /** Stepping from `first` meets `last` after `Size()` steps and no sooner, even through 255.255.255.255. */
  lemma SizeCountsSteps(r: AddressV4Range)
    ensures Nth(r.first, r.Size()) == r.last
    ensures forall n: nat :: n < r.Size() ==> Nth(r.first, n) != r.last
    ensures r.Empty() <==> Equal(r.first, r.last)
  {
    hide ToUint, FromUint;
    NthMeets(r.first, r.last, r.Size());
    forall n: nat | n < r.Size() ensures Nth(r.first, n) != r.last {
      NthMeets(r.first, r.last, n);
    }
    TotalOrder(r.first, r.last, r.last);
  }

  lemma VisitsByDistance(r: AddressV4Range, a: AddressV4)
    ensures r.Visits(a) <==> (ToUint(a) - ToUint(r.first)) % SPACE < r.Size()
  {
    hide ToUint, FromUint;
    var d := (ToUint(a) - ToUint(r.first)) % SPACE;
    NthMeets(r.first, a, d);
    forall n: nat | n < r.Size() && Nth(r.first, n) == a ensures n == d {
      NthMeets(r.first, a, n);
    }
  }

  /** In a range whose ends are in order, `Find` succeeds exactly on the addresses the traversal visits. */
  lemma FindMatchesTraversal(r: AddressV4Range, a: AddressV4)
    requires !Less(r.last, r.first)
    ensures r.Visits(a) ==> r.Find(a) == a && !Equal(r.Find(a), r.last)
    ensures !r.Visits(a) ==> r.Find(a) == r.last
  {
    hide ToUint, FromUint;
    VisitsByDistance(r, a);
    TotalOrder(a, r.last, r.first);
  }

  /** `Find` by the integers alone, for every pair of ends. */
  lemma FindByNumber(r: AddressV4Range, a: AddressV4)
    ensures r.Find(a) == if ToUint(r.first) <= ToUint(a) < ToUint(r.last) then a else r.last
  {
    hide ToUint;
  }

  /** Ends in order is exactly the condition: a wrapped range visits its first address, but `Find` rejects it. */
  lemma FindIsExactIffOrdered(r: AddressV4Range)
    ensures (forall a :: !Equal(r.Find(a), r.last) <==> r.Visits(a)) <==> !Less(r.last, r.first)
  {
    hide ToUint, FromUint;
    if Less(r.last, r.first) {
      VisitsByDistance(r, r.first);
      assert r.Visits(r.first) && r.Find(r.first) == r.last;
    } else {
      forall a ensures !Equal(r.Find(a), r.last) <==> r.Visits(a) {
        FindMatchesTraversal(r, a);
      }
    }
  }

  /** The loop `for (it = begin; it != end; ++it)` over any range. */
  method Traverse(r: AddressV4Range) returns (visited: seq<AddressV4>)
    ensures |visited| == r.Size()
    ensures forall i :: 0 <= i < |visited| ==> visited[i] == Nth(r.first, i)
  {
    hide ToUint, FromUint;
    visited := [];
    var it := new AddressV4Iterator(r.first);
    SizeCountsSteps(r);
    while !Equal(it.address, r.last)
      invariant |visited| <= r.Size() && it.address == Nth(r.first, |visited|)
      invariant forall i :: 0 <= i < |visited| ==> visited[i] == Nth(r.first, i)
      decreases r.Size() - |visited|
    {
      visited := visited + [it.address];
      it.Increment();
      assert it.address == Next(Nth(r.first, |visited| - 1));
    }
  }
}
