/** Counting round a circle of `m` places, as address iterators do. */
module Circular {
  import opened Words

  lemma Reduce(x: int, m: nat)
    requires m > 0 && 0 <= x + m < 3 * m
    ensures x % m == if x < 0 then x + m else if x < m then x else x - m
  {
    var q := if x < 0 then -1 else if x < m then 0 else 1;
    RemainderIsUnique(x, m, q, x - q * m);
  }

  /** One more step after `n` steps. */
  lemma StepAgain(b: nat, n: nat, m: nat)
    requires m > 0 && b < m
    ensures ((b + n) % m + 1) % m == (b + n + 1) % m
  {
    var q, r := (b + n) / m, (b + n) % m;
    Reduce(r + 1, m);
    var q', r' := if r + 1 < m then q else q + 1, (r + 1) % m;
    assert q' == q + 1 ==> q' * m == q * m + m;
    RemainderIsUnique(b + n + 1, m, q', r');
  }

  /** `n` steps from `b` end at `e` exactly when `n` is `e - b` up to whole laps. */
  lemma ArrivesAt(b: nat, e: nat, n: nat, m: nat)
    requires b < m && e < m
    ensures (b + n) % m == e <==> n % m == (e - b) % m
  {
    var q, r := n / m, n % m;
    Reduce(b + r, m);
    Reduce(e - b, m);
    var s := (b + r) % m;
    var q' := if b + r < m then q else q + 1;
    assert q' == q + 1 ==> q' * m == q * m + m;
    RemainderIsUnique(b + n, m, q', s);
  }
}
