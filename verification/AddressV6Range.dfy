/**
 IPv6 iterators and ranges (NetLite/ip/address_v6_iterator.hpp,
 NetLite/ip/address_v6_range.hpp).
 */
module AddressV6Ranges {
  import opened Bytes
  import opened Circular
  import opened AddressesV6

  /** How many IPv6 addresses there are: 2^128. */
  function Space(): (p: nat)
    ensures p >= 1
  {
    Pow256(16)
  }

  /** The address one above `a` in the same scope; the highest is followed by the lowest. */
  function Next(a: AddressV6): AddressV6 {
    AddressV6(FromValue((Number(a) + 1) % Space(), 16), a.scopeId)
  }

  function Previous(a: AddressV6): AddressV6 {
    AddressV6(FromValue((Number(a) - 1) % Space(), 16), a.scopeId)
  }

  function Nth(a: AddressV6, n: nat): AddressV6 {
    if n == 0 then a else Next(Nth(a, n - 1))
  }

  class AddressV6Iterator {
    const bytes: array<byte>
    const scopeId: u64

    ghost predicate Valid() {
      bytes.Length == 16
    }

    /** operator* */
    function Address(): AddressV6
      requires Valid()
      reads bytes
    {
      AddressV6(bytes[..], scopeId)
    }

    constructor (address: AddressV6)
      ensures Valid() && fresh(bytes) && Address() == address
    {
      bytes := new byte[16](i requires 0 <= i < 16 => address.bytes[i]);
      scopeId := address.scopeId;
      new;
      assert bytes[..] == address.bytes;
    }

    /** operator++ */
    method Increment()
      requires Valid()
      modifies bytes
      ensures Address() == Next(old(Address()))
    {
      Bytes.Increment(bytes);
      ValueInjective(bytes[..], FromValue(Value(bytes[..]), 16));
    }

    /** operator-- */
    method Decrement()
      requires Valid()
      modifies bytes
      ensures Address() == Previous(old(Address()))
    {
      Bytes.Decrement(bytes);
      ValueInjective(bytes[..], FromValue(Value(bytes[..]), 16));
    }

    /** operator++(int): the copy stays where this iterator was. */
    method PostIncrement() returns (before: AddressV6Iterator)
      requires Valid()
      modifies bytes
      ensures before.Valid() && fresh(before) && fresh(before.bytes)
      ensures before.Address() == old(Address())
      ensures Address() == Next(old(Address()))
    {
      before := new AddressV6Iterator(Address());
      Increment();
    }

    /** operator--(int) */
    method PostDecrement() returns (before: AddressV6Iterator)
      requires Valid()
      modifies bytes
      ensures before.Valid() && fresh(before) && fresh(before.bytes)
      ensures before.Address() == old(Address())
      ensures Address() == Previous(old(Address()))
    {
      before := new AddressV6Iterator(Address());
      Decrement();
    }
  }

  lemma SameNumber(a: AddressV6, b: AddressV6)
    requires Number(a) == Number(b) && a.scopeId == b.scopeId
    ensures a == b
  {
    ValueInjective(a.bytes, b.bytes);
  }

  lemma InSpace(a: AddressV6)
    ensures Number(a) < Space()
  {
    ValueBound(a.bytes);
  }

  lemma NumberOfNext(a: AddressV6)
    ensures Number(Next(a)) == (Number(a) + 1) % Space() && Next(a).scopeId == a.scopeId
    ensures Number(Previous(a)) == (Number(a) - 1) % Space() && Previous(a).scopeId == a.scopeId
  {
  }

  /** Increment and decrement undo each other, also across the ends of the space. */
  lemma NextAndPreviousUndo(a: AddressV6)
    ensures Previous(Next(a)) == a && Next(Previous(a)) == a
  {
    hide *;
    InSpace(a);
    NumberOfNext(a);
    NumberOfNext(Next(a));
    NumberOfNext(Previous(a));
    Reduce(Number(a) + 1, Space());
    Reduce(Number(Next(a)) - 1, Space());
    Reduce(Number(a) - 1, Space());
    Reduce(Number(Previous(a)) + 1, Space());
    SameNumber(Previous(Next(a)), a);
    SameNumber(Next(Previous(a)), a);
  }

  /** `n` increments add `n` modulo 2^128 and keep the scope id. */
  lemma {:induction false} NthAdds(a: AddressV6, n: nat)
    ensures Number(Nth(a, n)) == (Number(a) + n) % Space()
    ensures Nth(a, n).scopeId == a.scopeId
  {
    hide Number, Space, Next;
    InSpace(a);
    if n == 0 {
      Reduce(Number(a), Space());
    } else {
      NthAdds(a, n - 1);
      NumberOfNext(Nth(a, n - 1));
      StepAgain(Number(a), n - 1, Space());
    }
  }

  /** Stepping meets `b` exactly in the same scope, and at the distance to `b` up to whole laps. */
  lemma NthMeets(a: AddressV6, b: AddressV6, n: nat)
    ensures Nth(a, n) == b <==>
            a.scopeId == b.scopeId && n % Space() == (Number(b) - Number(a)) % Space()
  {
    hide *;
    NthAdds(a, n);
    InSpace(a);
    InSpace(b);
    ArrivesAt(Number(a), Number(b), n, Space());
    if Number(Nth(a, n)) == Number(b) && a.scopeId == b.scopeId {
      SameNumber(Nth(a, n), b);
    }
  }

  /** The first return to the start is after exactly 2^128 steps. */
  lemma FirstReturn(a: AddressV6)
    ensures Nth(a, 0x1_0000_0000_0000_0000_0000_0000_0000_0000) == a
    ensures forall n: nat :: 0 < n < 0x1_0000_0000_0000_0000_0000_0000_0000_0000 ==> Nth(a, n) != a
  {
    var laps := 0x1_0000_0000_0000_0000_0000_0000_0000_0000;
    assert Space() == laps by { SpaceSize(); }
    hide *;
    Reduce(Number(a) - Number(a), laps);
    NthMeets(a, a, laps);
    Reduce(laps, laps);
    forall n: nat | 0 < n < laps ensures Nth(a, n) != a {
      NthMeets(a, a, n);
      Reduce(n, laps);
    }
  }

  /** A half-open range; iterators are represented by the address they point to. */
  datatype AddressV6Range = AddressV6Range(first: AddressV6, last: AddressV6)
  {
    predicate Empty() {
      Equal(first, last)
    }

    function Find(a: AddressV6): AddressV6 {
      if GreaterOrEqual(a, first) && Less(a, last) then a else last
    }

    /** The number of steps from `first` to the number of `last`. */
    ghost function Distance(): nat {
      (Number(last) - Number(first)) % Space()
    }

    /** Stepping from `first` reaches `last`. */
    ghost predicate Terminates() {
      exists n: nat :: Nth(first, n) == last
    }

    /** The address is met by stepping from `first` before `last` is reached. */
    ghost predicate Visits(a: AddressV6) {
      exists n: nat :: Nth(first, n) == a && forall m: nat :: m <= n ==> Nth(first, m) != last
    }
  }

  /** The traversal ends exactly when both ends have one scope id, and then after `Distance()` steps. */
  lemma TerminatesIffScopesAgree(r: AddressV6Range)
    ensures r.Terminates() <==> r.first.scopeId == r.last.scopeId
    ensures r.Terminates() ==>
            Nth(r.first, r.Distance()) == r.last
            && forall n: nat :: n < r.Distance() ==> Nth(r.first, n) != r.last
  {
    hide Number, Space, Nth;
    InSpace(r.first);
    InSpace(r.last);
    var d := r.Distance();
    Reduce(Number(r.last) - Number(r.first), Space());
    Reduce(d, Space());
    NthMeets(r.first, r.last, d);
    forall n: nat ensures Nth(r.first, n) == r.last ==>
                            r.first.scopeId == r.last.scopeId && n % Space() == d {
      NthMeets(r.first, r.last, n);
    }
    forall n: nat | n < d ensures Nth(r.first, n) != r.last {
      Reduce(n, Space());
    }
  }

  lemma VisitsByDistance(r: AddressV6Range, a: AddressV6)
    requires r.first.scopeId == r.last.scopeId
    ensures r.Visits(a) <==>
            a.scopeId == r.first.scopeId && (Number(a) - Number(r.first)) % Space() < r.Distance()
  {
    hide Number, Space, Nth;
    TerminatesIffScopesAgree(r);
    var d := (Number(a) - Number(r.first)) % Space();
    InSpace(a);
    InSpace(r.first);
    Reduce(Number(a) - Number(r.first), Space());
    Reduce(d, Space());
    NthMeets(r.first, a, d);
    forall n: nat | Nth(r.first, n) == a && forall m: nat :: m <= n ==> Nth(r.first, m) != r.last
      ensures n == d && d < r.Distance()
    {
      NthMeets(r.first, a, n);
      assert r.Distance() > n;
      InSpace(r.last);
      Reduce(Number(r.last) - Number(r.first), Space());
      Reduce(n, Space());
    }
  }

  /** With ends in order and one scope for ends and key, `Find` succeeds exactly on the visited addresses. */
  lemma FindMatchesTraversal(r: AddressV6Range, a: AddressV6)
    requires r.first.scopeId == r.last.scopeId == a.scopeId
    requires !Less(r.last, r.first)
    ensures r.Visits(a) ==> r.Find(a) == a && !Equal(r.Find(a), r.last)
    ensures !r.Visits(a) ==> r.Find(a) == r.last
  {
    hide Number, Space, Nth, Less, Equal;
    VisitsByDistance(r, a);
    InSpace(a);
    InSpace(r.first);
    InSpace(r.last);
    Reduce(Number(a) - Number(r.first), Space());
    Reduce(Number(r.last) - Number(r.first), Space());
    OrderIsLexicographic(a, r.first);
    OrderIsLexicographic(a, r.last);
    OrderIsLexicographic(r.last, r.first);
  }

  /** A range is empty exactly if its traversal ends and takes no step, and exactly if it visits nothing. */
  lemma EmptyIffNothingIsVisited(r: AddressV6Range)
    ensures r.Empty() <==> r.Terminates() && r.Distance() == 0
    ensures r.Empty() <==> forall a :: !r.Visits(a)
  {
    hide Number, Space, Equal, AddressV6Range.Terminates, AddressV6Range.Distance;
    OrderIsLexicographic(r.first, r.last);
    TerminatesIffScopesAgree(r);
    if r.first == r.last {
      NoDistance(r);
      assert Nth(r.first, 0) == r.last;
    } else {
      assert Nth(r.first, 0) == r.first;
      assert r.Visits(r.first);
    }
  }

  lemma NoDistance(r: AddressV6Range)
    requires r.first == r.last
    ensures r.Distance() == 0
  {
    hide Number, Space;
    Reduce(0, Space());
  }

  /** A key of another scope that compares inside an ordered range is found, and no traversal meets it. */
  lemma FindReportsAnotherScope(r: AddressV6Range, a: AddressV6)
    requires r.first.scopeId == r.last.scopeId != a.scopeId
    requires !Less(r.last, r.first) && !Less(a, r.first) && Less(a, r.last)
    ensures !Equal(r.Find(a), r.last) && !r.Visits(a)
  {
    hide Number, Space, Nth, Less;
    OrderIsLexicographic(a, r.last);
    VisitsByDistance(r, a);
  }

  /** For instance in the range from :: to ::2, both of scope 0, the address ::1 of scope 1. */
  lemma AnotherScopeExample() returns (r: AddressV6Range, a: AddressV6)
    ensures r.first.scopeId == r.last.scopeId != a.scopeId
    ensures !Less(r.last, r.first) && !Less(a, r.first) && Less(a, r.last)
    ensures !Equal(r.Find(a), r.last) && !r.Visits(a)
  {
    var low := [0, 0, 0, 0, 0, 0, 0, 0, 0, 0, 0, 0, 0, 0, 0];
    r := AddressV6Range(AddressV6(low + [0], 0), AddressV6(low + [2], 0));
    a := AddressV6(low + [1], 1);
    hide Number, Less, Value;
    LastByte(low, 0, 0);
    LastByte(low, 1, 1);
    LastByte(low, 2, 0);
    OrderIsLexicographic(r.last, r.first);
    OrderIsLexicographic(a, r.first);
    OrderIsLexicographic(a, r.last);
    FindReportsAnotherScope(r, a);
  }

  lemma LastByte(low: seq<byte>, b: byte, scope: u64)
    requires |low| == 15
    ensures Number(AddressV6(low + [b], scope)) == 0x100 * Value(low) + b
  {
    assert (low + [b])[..15] == low;
  }

  /** Every scope's addresses lie inside the number range of an ordered pair of ends, so a key of
      another scope is found whenever it compares inside, though no traversal meets it. */
  lemma FindIgnoresScope(r: AddressV6Range, a: AddressV6)
    requires r.first.scopeId == r.last.scopeId
    requires !Less(r.last, r.first)
    ensures (!Equal(r.Find(a), r.last) <==> r.Visits(a)) <==>
            a.scopeId == r.first.scopeId || Less(a, r.first) || !Less(a, r.last)
  {
    hide Number, Space, Nth, Less;
    OrderIsLexicographic(a, r.last);
    OrderIsLexicographic(r.last, r.last);
    if a.scopeId == r.first.scopeId {
      FindMatchesTraversal(r, a);
    } else {
      VisitsByDistance(r, a);
    }
  }

  /** `Find` by numbers and scope ids alone, for every pair of ends. */
  lemma FindByNumber(r: AddressV6Range, a: AddressV6)
    ensures var x, y, z := Number(r.first), Number(a), Number(r.last);
            r.Find(a) ==
            if (x < y || (x == y && r.first.scopeId <= a.scopeId)) && (y < z || (y == z && a.scopeId < r.last.scopeId))
            then a else r.last
  {
    hide Number, Less;
    OrderIsLexicographic(a, r.first);
    OrderIsLexicographic(a, r.last);
  }

  /** For keys of the range's scope ends in order is exactly the condition: a wrapped range visits its first
      address, but `Find` rejects it. */
  lemma FindIsExactIffOrdered(r: AddressV6Range)
    requires r.first.scopeId == r.last.scopeId
    ensures (forall a: AddressV6 :: a.scopeId == r.first.scopeId ==> (!Equal(r.Find(a), r.last) <==> r.Visits(a)))
            <==> !Less(r.last, r.first)
  {
    hide Number, Space, Nth;
    if Less(r.last, r.first) {
      WrappedRange(r);
    } else {
      hide Less, Equal;
      forall a: AddressV6 | a.scopeId == r.first.scopeId ensures !Equal(r.Find(a), r.last) <==> r.Visits(a) {
        FindMatchesTraversal(r, a);
        OrderIsLexicographic(r.last, r.last);
      }
    }
  }

  lemma WrappedRange(r: AddressV6Range)
    requires r.first.scopeId == r.last.scopeId && Less(r.last, r.first)
    ensures r.Visits(r.first) && r.Find(r.first) == r.last && Equal(r.last, r.last)
  {
    hide Number, Space, Nth, Less, Equal;
    InSpace(r.first);
    InSpace(r.last);
    OrderIsLexicographic(r.last, r.first);
    OrderIsLexicographic(r.first, r.last);
    OrderIsLexicographic(r.last, r.last);
    VisitsByDistance(r, r.first);
    Reduce(0, Space());
    Reduce(Number(r.last) - Number(r.first), Space());
  }

  /** The loop `for (it = begin; it != end; ++it)`; without a common scope id it would never end. */
  method Traverse(r: AddressV6Range) returns (visited: seq<AddressV6>)
    requires r.first.scopeId == r.last.scopeId
    ensures |visited| == r.Distance()
    ensures forall i :: 0 <= i < |visited| ==> visited[i] == Nth(r.first, i)
  {
    hide Number, Space, Next, Less, Equal;
    TerminatesIffScopesAgree(r);
    OrderIsLexicographic(r.first, r.last);
    visited := [];
    var it := new AddressV6Iterator(r.first);
    while !Equal(it.Address(), r.last)
      invariant it.Valid() && fresh(it.bytes)
      invariant |visited| <= r.Distance() && it.Address() == Nth(r.first, |visited|)
      invariant forall i :: 0 <= i < |visited| ==> visited[i] == Nth(r.first, i)
      decreases r.Distance() - |visited|
    {
      OrderIsLexicographic(it.Address(), r.last);
      visited := visited + [it.Address()];
      it.Increment();
      assert it.Address() == Next(Nth(r.first, |visited| - 1));
    }
    OrderIsLexicographic(it.Address(), r.last);
  }

  /** With ends in order the visited addresses are `[first, last)`, each once, in strictly increasing order. */
  lemma TraversalIsTheInterval(r: AddressV6Range, visited: seq<AddressV6>)
    requires r.first.scopeId == r.last.scopeId
    requires !Less(r.last, r.first)
    requires |visited| == r.Distance()
    requires forall i :: 0 <= i < |visited| ==> visited[i] == Nth(r.first, i)
    ensures |visited| == Number(r.last) - Number(r.first)
    ensures forall i, j :: 0 <= i < j < |visited| ==> Less(visited[i], visited[j])
    ensures forall a :: a in visited <==>
                        a.scopeId == r.first.scopeId && !Less(a, r.first) && Less(a, r.last)
  {
    hide Number, Space, Nth, Less;
    InSpace(r.first);
    InSpace(r.last);
    OrderIsLexicographic(r.last, r.first);
    Reduce(Number(r.last) - Number(r.first), Space());
    forall i | 0 <= i < |visited|
      ensures Number(visited[i]) == Number(r.first) + i && visited[i].scopeId == r.first.scopeId
    {
      NthAdds(r.first, i);
      Reduce(Number(r.first) + i, Space());
    }
    forall i, j | 0 <= i < j < |visited| ensures Less(visited[i], visited[j]) {
      OrderIsLexicographic(visited[i], visited[j]);
    }
    forall a ensures a in visited <==>
                       a.scopeId == r.first.scopeId && !Less(a, r.first) && Less(a, r.last) {
      OrderIsLexicographic(a, r.first);
      OrderIsLexicographic(a, r.last);
      if a.scopeId == r.first.scopeId && !Less(a, r.first) && Less(a, r.last) {
        SameNumber(visited[Number(a) - Number(r.first)], a);
      }
    }
  }
}
