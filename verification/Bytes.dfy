/**
 Byte strings read as big-endian numbers: the arithmetic underneath the IPv6
 iterator's carry and borrow loops and underneath `memcmp`. Everything here is
 for byte strings of any length; addresses use it at lengths 4 and 16.
 */
module Bytes {

  type byte = b: int | 0 <= b < 0x100

  /** The number of byte strings of length `n`. */
  function Pow256(n: nat): (p: nat)
    ensures p >= 1
  {
    if n == 0 then 1 else 256 * Pow256(n - 1)
  }

  /** The number a byte string denotes, most significant byte first. */
  function Value(s: seq<byte>): nat
  {
    if |s| == 0 then 0 else 256 * Value(s[..|s| - 1]) + s[|s| - 1]
  }

  /** The byte string of length `n` that denotes `v`; the inverse of `Value`. */
  function FromValue(v: nat, n: nat): (s: seq<byte>)
    requires v < Pow256(n)
    ensures |s| == n && Value(s) == v
  {
    if n == 0 then [] else
      var front := FromValue(v / 256, n - 1);
      assert (front + [v % 256])[..n - 1] == front;
      front + [v % 256]
  }

  lemma {:induction false} ValueBound(s: seq<byte>)
    ensures Value(s) < Pow256(|s|)
  {
    if |s| > 0 {
      ValueBound(s[..|s| - 1]);
    }
  }

  lemma {:induction false} ValueConcat(a: seq<byte>, b: seq<byte>)
    ensures Value(a + b) == Value(a) * Pow256(|b|) + Value(b)
  {
    if |b| == 0 {
      assert a + b == a;
    } else {
      var b' := b[..|b| - 1];
      assert (a + b)[..|a + b| - 1] == a + b';
      ValueConcat(a, b');
      var p := Pow256(|b'|);
      assert 256 * (Value(a) * p) == Value(a) * (256 * p);
    }
  }

  lemma {:induction false} ValueInjective(a: seq<byte>, b: seq<byte>)
    requires |a| == |b| && Value(a) == Value(b)
    ensures a == b
  {
    if |a| > 0 {
      ValueInjective(a[..|a| - 1], b[..|b| - 1]);
      assert a == a[..|a| - 1] + [a[|a| - 1]];
      assert b == b[..|b| - 1] + [b[|b| - 1]];
    }
  }

  /** The sign `memcmp` reports: that of the first pair of bytes that differ. */
  function Memcmp(a: seq<byte>, b: seq<byte>): int
    requires |a| == |b|
  {
    if |a| == 0 then 0
    else if a[0] != b[0] then a[0] - b[0]
    else Memcmp(a[1..], b[1..])
  }

  lemma {:induction false} HeadAndTail(s: seq<byte>)
    requires |s| > 0
    ensures Value(s) == s[0] * Pow256(|s| - 1) + Value(s[1..])
    ensures Value(s[1..]) < Pow256(|s| - 1)
  {
    assert s == [s[0]] + s[1..];
    ValueConcat([s[0]], s[1..]);
    assert [s[0]][..0] == [];
    ValueBound(s[1..]);
  }

  lemma ScaledGap(x: int, y: int, p: nat)
    requires x < y
    ensures x * p + p <= y * p
  {
    var d: nat := y - x - 1;
    assert y * p == (x + 1) * p + d * p;
  }

  lemma ModularStep(x: int, m: nat)
    requires m > 0
    ensures 0 <= x < m ==> x % m == x
    ensures x == m ==> x % m == 0
    ensures x == -1 ==> x % m == m - 1
  {
    if x == -1 {
      assert x == -1 * m + (m - 1);
    }
  }

  /** `memcmp` orders byte strings of one length as the numbers they denote. */
  lemma {:induction false} MemcmpOrdersValues(a: seq<byte>, b: seq<byte>)
    requires |a| == |b|
    ensures Memcmp(a, b) < 0 <==> Value(a) < Value(b)
    ensures Memcmp(a, b) == 0 <==> a == b
    ensures Memcmp(a, b) > 0 <==> Value(a) > Value(b)
  {
    if |a| > 0 {
      HeadAndTail(a);
      HeadAndTail(b);
      var p := Pow256(|a| - 1);
      if a[0] < b[0] {
        ScaledGap(a[0], b[0], p);
      } else if a[0] > b[0] {
        ScaledGap(b[0], a[0], p);
      } else {
        MemcmpOrdersValues(a[1..], b[1..]);
        assert a == [a[0]] + a[1..] && b == [b[0]] + b[1..];
      }
    }
  }

  /** One byte went up by one and every byte after it rolled over. */
  lemma {:induction false} CarryAddsOne(s: seq<byte>, t: seq<byte>, i: nat)
    requires |s| == |t| && i < |s|
    requires forall k :: 0 <= k < i ==> t[k] == s[k]
    requires s[i] < 0xFF && t[i] == s[i] + 1
    requires forall k :: i < k < |s| ==> s[k] == 0xFF && t[k] == 0
    ensures Value(t) == Value(s) + 1
  {
    var s', t' := s[..|s| - 1], t[..|t| - 1];
    if i == |s| - 1 {
      assert s' == t';
    } else {
      CarryAddsOne(s', t', i);
    }
  }

  /** Every byte rolled over. */
  lemma {:induction false} CarryOffTheTop(s: seq<byte>, t: seq<byte>)
    requires |s| == |t|
    requires forall k :: 0 <= k < |s| ==> s[k] == 0xFF && t[k] == 0
    ensures Value(s) + 1 == Pow256(|s|) && Value(t) == 0
  {
    if |s| > 0 {
      CarryOffTheTop(s[..|s| - 1], t[..|t| - 1]);
    }
  }

  /** The carry loop: adds one, modulo the number of strings of this length. */
  method Increment(a: array<byte>)
    modifies a
    ensures Value(a[..]) == (Value(old(a[..])) + 1) % Pow256(a.Length)
  {
    ghost var was := a[..];
    ValueBound(was);
    var i := a.Length - 1;
    while i >= 0
      invariant -1 <= i < a.Length
      invariant forall k :: 0 <= k <= i ==> a[k] == was[k]
      invariant forall k :: i < k < a.Length ==> was[k] == 0xFF && a[k] == 0
    {
      if a[i] < 0xFF {
        a[i] := a[i] + 1;
        CarryAddsOne(was, a[..], i);
        ValueBound(a[..]);
        ModularStep(Value(was) + 1, Pow256(a.Length));
        return;
      }
      a[i] := 0;
      i := i - 1;
    }
    CarryOffTheTop(was, a[..]);
    ModularStep(Value(was) + 1, Pow256(a.Length));
  }

  /** The borrow loop: subtracts one, modulo the number of strings of this length. */
  method Decrement(a: array<byte>)
    modifies a
    ensures Value(a[..]) == (Value(old(a[..])) - 1) % Pow256(a.Length)
  {
    ghost var was := a[..];
    ValueBound(was);
    var i := a.Length - 1;
    while i >= 0
      invariant -1 <= i < a.Length
      invariant forall k :: 0 <= k <= i ==> a[k] == was[k]
      invariant forall k :: i < k < a.Length ==> was[k] == 0 && a[k] == 0xFF
    {
      if a[i] > 0 {
        a[i] := a[i] - 1;
        CarryAddsOne(a[..], was, i);
        ModularStep(Value(was) - 1, Pow256(a.Length));
        return;
      }
      a[i] := 0xFF;
      i := i - 1;
    }
    CarryOffTheTop(a[..], was);
    ModularStep(Value(was) - 1, Pow256(a.Length));
  }
}
