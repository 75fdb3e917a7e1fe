/**
 Fixed-width unsigned words: the bitwise operators, and the conversions between
 host and network byte order. `HOST` is the machine's own byte order; its value
 is left open, so everything proved here and above holds for both orders.
 */
module Words {
  import opened Bytes

  type u16 = x: int | 0 <= x < 0x1_0000
  type u32 = x: int | 0 <= x < 0x1_0000_0000

  datatype ByteOrder = LittleEndian | BigEndian

  const HOST: ByteOrder

  // ---------------------------------------------------------------- bitwise

  function Pow2(n: nat): (p: nat)
    ensures p >= 1
  {
    if n == 0 then 1 else 2 * Pow2(n - 1)
  }

  /** `x & y` on `n`-bit words. */
  function And(n: nat, x: nat, y: nat): nat
  {
    if n == 0 then 0
    else 2 * And(n - 1, x / 2, y / 2) + if x % 2 == 1 && y % 2 == 1 then 1 else 0
  }

  /** `x | y` on `n`-bit words. */
  function Or(n: nat, x: nat, y: nat): nat
  {
    if n == 0 then 0
    else 2 * Or(n - 1, x / 2, y / 2) + if x % 2 == 1 || y % 2 == 1 then 1 else 0
  }

  /** `x ^ y` on `n`-bit words. */
  function Xor(n: nat, x: nat, y: nat): nat
  {
    if n == 0 then 0
    else 2 * Xor(n - 1, x / 2, y / 2) + if x % 2 != y % 2 then 1 else 0
  }

  lemma {:induction false} MultipleIsLarge(d: nat, m: nat)
    requires d > 0
    ensures d * m >= m
  {
    if d > 1 {
      MultipleIsLarge(d - 1, m);
      assert d * m == (d - 1) * m + m;
    }
  }

  lemma MultiplesApart(d: int, m: int)
    requires m > 0
    ensures d > 0 ==> d * m >= m
    ensures d < 0 ==> d * m <= -m
  {
    if d > 0 {
      MultipleIsLarge(d, m);
    } else if d < 0 {
      MultipleIsLarge(-d, m);
      assert (-d) * m == -(d * m);
    }
  }

  lemma RemainderIsUnique(x: int, m: int, q: int, r: int)
    requires m > 0 && 0 <= r < m && x == q * m + r
    ensures x % m == r && x / m == q
  {
    assert (x / m - q) * m == r - x % m;
    MultiplesApart(x / m - q, m);
  }

  lemma {:induction false} AndAllOnes(n: nat, x: nat)
    requires x < Pow2(n)
    ensures And(n, x, Pow2(n) - 1) == x
  {
    if n > 0 {
      var y := 2 * Pow2(n - 1) - 1;
      assert y / 2 == Pow2(n - 1) - 1 && y % 2 == 1;
      AndAllOnes(n - 1, x / 2);
    }
  }

  lemma {:induction false} AndParts(n: nat, k: nat, q: nat, r: nat)
    requires k <= n && r < Pow2(k) && q * Pow2(k) + r < Pow2(n)
    ensures Pow2(k) <= Pow2(n) && And(n, q * Pow2(k) + r, Pow2(n) - Pow2(k)) == q * Pow2(k)
  {
    if k == 0 {
      AndAllOnes(n, q);
    } else {
      var p := Pow2(k - 1);
      var t := q * p;
      assert q * Pow2(k) == 2 * t;
      assert (2 * t + r) / 2 == t + r / 2 && (2 * t + r) % 2 == r % 2;
      AndParts(n - 1, k - 1, q, r / 2);
      var y := 2 * (Pow2(n - 1) - p);
      assert y == Pow2(n) - Pow2(k) && y / 2 == Pow2(n - 1) - p && y % 2 == 0;
    }
  }

  /** A mask of leading ones clears exactly the `k` low bits. */
  lemma AndLeadingMask(n: nat, k: nat, x: nat)
    requires k <= n && x < Pow2(n)
    ensures Pow2(k) <= Pow2(n) && And(n, x, Pow2(n) - Pow2(k)) == x - x % Pow2(k)
  {
    hide *;
    AndParts(n, k, x / Pow2(k), x % Pow2(k));
  }

  lemma {:induction false} OrZero(n: nat, x: nat)
    requires x < Pow2(n)
    ensures Or(n, x, 0) == x
  {
    if n > 0 {
      OrZero(n - 1, x / 2);
    }
  }

  lemma {:induction false} OrParts(n: nat, k: nat, q: nat, r: nat)
    requires k <= n && r < Pow2(k) && q * Pow2(k) + r < Pow2(n)
    ensures Or(n, q * Pow2(k) + r, Pow2(k) - 1) == q * Pow2(k) + (Pow2(k) - 1)
  {
    if k == 0 {
      OrZero(n, q);
    } else {
      var p := Pow2(k - 1);
      var t := q * p;
      assert q * Pow2(k) == 2 * t;
      assert (2 * t + r) / 2 == t + r / 2 && (2 * t + r) % 2 == r % 2;
      OrParts(n - 1, k - 1, q, r / 2);
      assert (2 * p - 1) / 2 == p - 1 && (2 * p - 1) % 2 == 1;
    }
  }

  /** Or-ing in `k` trailing ones raises the `k` low bits to their maximum. */
  lemma OrTrailingMask(n: nat, k: nat, x: nat)
    requires k <= n && x < Pow2(n)
    ensures Or(n, x, Pow2(k) - 1) == x - x % Pow2(k) + (Pow2(k) - 1)
  {
    hide *;
    OrParts(n, k, x / Pow2(k), x % Pow2(k));
  }

  /** Exclusive-or with all ones complements a word. */
  lemma {:induction false} XorAllOnes(n: nat, x: nat)
    requires x < Pow2(n)
    ensures Xor(n, x, Pow2(n) - 1) == Pow2(n) - 1 - x
  {
    if n > 0 {
      XorAllOnes(n - 1, x / 2);
      assert (Pow2(n) - 1) / 2 == Pow2(n - 1) - 1;
    }
  }

  lemma PowersOfTwo()
    ensures Pow2(8) == 0x100 && Pow2(16) == 0x1_0000 && Pow2(24) == 0x100_0000
    ensures Pow2(28) == 0x1000_0000 && Pow2(29) == 0x2000_0000 && Pow2(30) == 0x4000_0000
    ensures Pow2(31) == 0x8000_0000 && Pow2(32) == 0x1_0000_0000
  {
    assert Pow2(4) == 16;
    assert Pow2(8) == 0x100;
    assert Pow2(12) == 0x1000;
    assert Pow2(16) == 0x1_0000;
    assert Pow2(20) == 0x10_0000;
    assert Pow2(24) == 0x100_0000;
    assert Pow2(28) == 0x1000_0000;
    assert Pow2(32) == 0x1_0000_0000;
  }

  // ------------------------------------------------------------- byte order

  function Reverse(s: seq<byte>): (r: seq<byte>)
    ensures |r| == |s| && forall i :: 0 <= i < |s| ==> r[i] == s[|s| - 1 - i]
  {
    if |s| == 0 then [] else Reverse(s[1..]) + [s[0]]
  }

  /** The word whose bytes in memory, lowest address first, are `image`. */
  function Load(image: seq<byte>): nat
  {
    if HOST.BigEndian? then Value(image) else Value(Reverse(image))
  }

  /** The `n` bytes a word occupies in memory, lowest address first. */
  function Store(word: nat, n: nat): (image: seq<byte>)
    requires word < Pow256(n)
    ensures |image| == n
  {
    if HOST.BigEndian? then FromValue(word, n) else Reverse(FromValue(word, n))
  }

  lemma LoadStore(word: nat, n: nat)
    requires word < Pow256(n)
    ensures Load(Store(word, n)) == word
  {
    var s := FromValue(word, n);
    assert Reverse(Reverse(s)) == s;
  }

  lemma ValueSurjective(s: seq<byte>)
    ensures Value(s) < Pow256(|s|) && FromValue(Value(s), |s|) == s
  {
    ValueBound(s);
    ValueInjective(s, FromValue(Value(s), |s|));
  }

  lemma StoreLoad(image: seq<byte>)
    ensures Load(image) < Pow256(|image|) && Store(Load(image), |image|) == image
  {
    if HOST.BigEndian? {
      ValueSurjective(image);
    } else {
      ValueSurjective(Reverse(image));
      assert Reverse(Reverse(image)) == image;
    }
  }

  lemma WordSizes()
    ensures Pow256(2) == 0x1_0000 && Pow256(4) == 0x1_0000_0000
  {
    assert Pow256(1) == 0x100;
    assert Pow256(3) == 0x100 * Pow256(2);
  }

  lemma Value4(s: seq<byte>)
    requires |s| == 4
    ensures Value(s) == s[0] as int * 0x100_0000 + s[1] as int * 0x1_0000 + s[2] as int * 0x100 + s[3]
  {
    assert s[..3][..2] == s[..2] && s[..2][..1] == s[..1] && s[..1][..0] == [];
    assert Value(s) == 0x100 * Value(s[..3]) + s[3];
    assert Value(s[..3]) == 0x100 * Value(s[..2]) + s[2];
    assert Value(s[..2]) == 0x100 * Value(s[..1]) + s[1];
  }

  lemma Value2(s: seq<byte>)
    requires |s| == 2
    ensures Value(s) == s[0] as int * 0x100 + s[1]
  {
    assert s[..1][..0] == [];
    assert Value(s) == 0x100 * Value(s[..1]) + s[1];
  }

  /** A word with these four bytes in memory fits 32 bits. */
  function LoadLong(image: seq<byte>): u32
    requires |image| == 4
  {
    WordSizes();
    StoreLoad(image);
    Load(image)
  }

  function StoreLong(word: u32): (image: seq<byte>)
    ensures |image| == 4
  {
    WordSizes();
    Store(word, 4)
  }

  function LoadShort(image: seq<byte>): u16
    requires |image| == 2
  {
    WordSizes();
    StoreLoad(image);
    Load(image)
  }

  function StoreShort(word: u16): (image: seq<byte>)
    ensures |image| == 2
  {
    WordSizes();
    Store(word, 2)
  }

  /** The four bytes of a word, most significant first. */
  function Octets(value: u32): (s: seq<byte>)
    ensures |s| == 4
  {
    [value / 0x100_0000, value / 0x1_0000 % 0x100, value / 0x100 % 0x100, value % 0x100]
  }

  /** The word whose memory image is `value`, most significant byte first. */
  function HostToNetworkLong(value: u32): u32
  {
    LoadLong(Octets(value))
  }

  function NetworkToHostLong(value: u32): u32
  {
    var p := StoreLong(value);
    p[0] as int * 0x100_0000 + p[1] as int * 0x1_0000 + p[2] as int * 0x100 + p[3]
  }

  function HostToNetworkShort(value: u16): u16
  {
    LoadShort([value / 0x100, value % 0x100])
  }

  function NetworkToHostShort(value: u16): u16
  {
    var p := StoreShort(value);
    p[0] as int * 0x100 + p[1]
  }

  lemma DigitsOf(a: byte, b: byte, c: byte, d: byte)
    ensures var v := a as int * 0x100_0000 + b as int * 0x1_0000 + c as int * 0x100 + d;
            v / 0x100_0000 == a && v / 0x1_0000 % 0x100 == b && v / 0x100 % 0x100 == c && v % 0x100 == d
  {
    var v := a as int * 0x100_0000 + b as int * 0x1_0000 + c as int * 0x100 + d;
    var ab := a as int * 0x100 + b;
    RemainderIsUnique(v, 0x100_0000, a, b as int * 0x1_0000 + c as int * 0x100 + d);
    RemainderIsUnique(v, 0x1_0000, ab, c as int * 0x100 + d);
    RemainderIsUnique(v, 0x100, ab * 0x100 + c, d);
    RemainderIsUnique(ab, 0x100, a, b);
    RemainderIsUnique(ab * 0x100 + c, 0x100, ab, c);
  }

  lemma OctetsOfValue(p: seq<byte>)
    requires |p| == 4
    ensures Value(p) < 0x1_0000_0000 && Octets(Value(p)) == p
  {
    Value4(p);
    DigitsOf(p[0], p[1], p[2], p[3]);
  }

  lemma Digits(value: u32)
    ensures value == value / 0x100_0000 * 0x100_0000 + value / 0x1_0000 % 0x100 * 0x1_0000
                     + value / 0x100 % 0x100 * 0x100 + value % 0x100
  {
    assert value / 0x100 == value / 0x1_0000 * 0x100 + value / 0x100 % 0x100;
    assert value / 0x1_0000 == value / 0x100_0000 * 0x100 + value / 0x1_0000 % 0x100;
  }

  lemma ValueOfOctets(value: u32)
    ensures Value(Octets(value)) == value
  {
    hide Value;
    Digits(value);
    Value4(Octets(value));
  }

  /** A word and its memory image determine each other. */
  lemma LongImage(word: u32, image: seq<byte>)
    requires |image| == 4
    ensures LoadLong(StoreLong(word)) == word && StoreLong(LoadLong(image)) == image
  {
    hide Load, Store;
    WordSizes();
    LoadStore(word, 4);
    StoreLoad(image);
  }

  /** Network order is most significant byte first. */
  lemma NetworkOrderIsBigEndian(word: u32)
    ensures Value(StoreLong(word)) == NetworkToHostLong(word)
  {
    hide Store, Value;
    Value4(StoreLong(word));
  }

  /** Each conversion undoes the other, whatever the host's byte order. */
  lemma LongRoundTrip(value: u32)
    ensures NetworkToHostLong(HostToNetworkLong(value)) == value
    ensures HostToNetworkLong(NetworkToHostLong(value)) == value
  {
    hide LoadLong, StoreLong, Octets, NetworkToHostLong, Value;
    LongImage(value, Octets(value));
    NetworkOrderIsBigEndian(value);
    NetworkOrderIsBigEndian(HostToNetworkLong(value));
    ValueOfOctets(value);
    OctetsOfValue(StoreLong(value));
  }

  lemma ShortImage(word: u16, image: seq<byte>)
    requires |image| == 2
    ensures LoadShort(StoreShort(word)) == word && StoreShort(LoadShort(image)) == image
  {
    hide Load, Store;
    WordSizes();
    LoadStore(word, 2);
    StoreLoad(image);
  }

  lemma ShortRoundTrip(value: u16)
    ensures NetworkToHostShort(HostToNetworkShort(value)) == value
    ensures HostToNetworkShort(NetworkToHostShort(value)) == value
  {
    hide LoadShort, StoreShort;
    ShortImage(value, [value / 0x100, value % 0x100]);
    var p := StoreShort(value);
    assert p == [p[0], p[1]];
  }

  /** Network order is most significant byte first for short words too. */
  lemma ShortNetworkOrderIsBigEndian(word: u16)
    ensures Value(StoreShort(word)) == NetworkToHostShort(word)
    ensures StoreShort(word) == [NetworkToHostShort(word) / 0x100, NetworkToHostShort(word) % 0x100]
  {
    hide Store, Value, StoreShort;
    var p := StoreShort(word);
    Value2(p);
    assert p == [p[0], p[1]];
  }

  /** What lies in memory after a conversion to network order. */
  lemma NetworkImages(long: u32, short: u16)
    ensures StoreLong(HostToNetworkLong(long)) ==
            [long / 0x100_0000, long / 0x1_0000 % 0x100, long / 0x100 % 0x100, long % 0x100]
    ensures StoreShort(HostToNetworkShort(short)) == [short / 0x100, short % 0x100]
  {
    hide LoadLong, StoreLong, LoadShort, StoreShort;
    LongImage(0, Octets(long));
    ShortImage(0, [short / 0x100, short % 0x100]);
  }

  // ------------------------------------------------------------ single bits

  /** Bit `i` of a word. */
  function Bit(x: nat, i: nat): nat {
    x / Pow2(i) % 2
  }

  lemma LowestBit(x: nat)
    ensures Bit(x, 0) == x % 2
  {
  }

  lemma BitOfHalf(x: nat, i: nat)
    requires i > 0
    ensures Bit(x, i) == Bit(x / 2, i - 1)
  {
    var p := Pow2(i - 1);
    var q, r := x / (2 * p), x % (2 * p);
    assert x == q * (2 * p) + r;
    assert x / 2 == q * p + r / 2;
    RemainderIsUnique(x / 2, p, q, r / 2);
  }

  lemma {:induction false} OrBit(n: nat, x: nat, y: nat, i: nat)
    requires i < n
    ensures Bit(Or(n, x, y), i) == if Bit(x, i) == 1 || Bit(y, i) == 1 then 1 else 0
  {
    hide Bit, Pow2;
    var r := Or(n, x, y);
    assert r / 2 == Or(n - 1, x / 2, y / 2);
    if i == 0 {
      LowestBit(r);
      LowestBit(x);
      LowestBit(y);
    } else {
      BitOfHalf(r, i);
      BitOfHalf(x, i);
      BitOfHalf(y, i);
      OrBit(n - 1, x / 2, y / 2, i - 1);
    }
  }

  lemma {:induction false} XorBit(n: nat, x: nat, y: nat, i: nat)
    requires i < n
    ensures Bit(Xor(n, x, y), i) == if Bit(x, i) != Bit(y, i) then 1 else 0
  {
    hide Bit, Pow2;
    var r := Xor(n, x, y);
    assert r / 2 == Xor(n - 1, x / 2, y / 2);
    if i == 0 {
      LowestBit(r);
      LowestBit(x);
      LowestBit(y);
    } else {
      BitOfHalf(r, i);
      BitOfHalf(x, i);
      BitOfHalf(y, i);
      XorBit(n - 1, x / 2, y / 2, i - 1);
    }
  }

  lemma {:induction false} AndBit(n: nat, x: nat, y: nat, i: nat)
    requires i < n
    ensures Bit(And(n, x, y), i) == if Bit(x, i) == 1 && Bit(y, i) == 1 then 1 else 0
  {
    hide Bit, Pow2;
    var r := And(n, x, y);
    assert r / 2 == And(n - 1, x / 2, y / 2);
    if i == 0 {
      LowestBit(r);
      LowestBit(x);
      LowestBit(y);
    } else {
      BitOfHalf(r, i);
      BitOfHalf(x, i);
      BitOfHalf(y, i);
      AndBit(n - 1, x / 2, y / 2, i - 1);
    }
  }

  lemma NextPower(n: nat)
    requires n > 0
    ensures Pow2(n) == 2 * Pow2(n - 1)
  {
  }

  /** Every bit of the word of `n` ones is set. */
  lemma {:induction false} AllOnesBit(n: nat, i: nat)
    requires i < n
    ensures Bit(Pow2(n) - 1, i) == 1
  {
    hide Bit, Pow2;
    var q := Pow2(n - 1) - 1;
    NextPower(n);
    assert (2 * q + 1) / 2 == q && (2 * q + 1) % 2 == 1;
    if i == 0 {
      LowestBit(2 * q + 1);
    } else {
      BitOfHalf(2 * q + 1, i);
      AllOnesBit(n - 1, i - 1);
    }
  }
}
