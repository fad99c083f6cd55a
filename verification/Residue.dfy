/** Residues of sequence numbers modulo a group or window size. */
module Residue {

  lemma Grows(d: int, k: int)
    requires k > 0
    ensures d > 0 ==> d * k >= k
    ensures d < 0 ==> d * k <= -k
  {
  }

  lemma Unique(x: int, q: int, r: int, k: int)
    requires 0 <= r < k && x == q * k + r
    ensures x / k == q && x % k == r
  {
    var d := x / k - q;
    assert d * k == r - x % k;
    Grows(d, k);
  }

  lemma RoundDown(x: int, k: int)
    requires k > 0
    ensures (x - x % k) % k == 0 && x - x % k <= x < x - x % k + k
  {
    Unique(x - x % k, x / k, 0, k);
  }

  /** Moving by less than `k` from a multiple of `k`. */
  lemma FromMultiple(a: int, x: int, k: int)
    requires k > 0 && a % k == 0 && a <= x < a + k
    ensures x % k == x - a
  {
    Unique(x, a / k, x - a, k);
  }

  lemma NextMultiple(a: int, k: int)
    requires k > 0 && a % k == 0
    ensures (a + k) % k == 0 && (a - k) % k == 0
  {
    assert (a / k + 1) * k == a + k;
    Unique(a + k, a / k + 1, 0, k);
    assert (a / k - 1) * k == a - k;
    Unique(a - k, a / k - 1, 0, k);
  }

  /** Two numbers closer than `k` with equal residues are equal. */
  lemma Injective(a: int, b: int, k: int)
    requires k > 0 && a % k == b % k && -k < a - b < k
    ensures a == b
  {
    var d := a / k - b / k;
    assert a - b == d * k;
    Grows(d, k);
  }

  lemma Distinct(a: int, b: int, k: int)
    requires k > 0 && a != b && -k < a - b < k
    ensures a % k != b % k
  {
    if a % k == b % k { Injective(a, b, k); }
  }

  /** Multiples of `k` in strict order are at least `k` apart. */
  lemma Apart(a: int, b: int, k: int)
    requires k > 0 && a % k == 0 && b % k == 0 && a < b
    ensures a + k <= b
  {
    if b < a + k { Injective(a, b, k); }
  }

  /** Adding a multiple of `k` keeps the residue. */
  lemma AddMultiple(x: int, q: int, k: int)
    requires k > 0
    ensures (x + q * k) % k == x % k
  {
    assert x + q * k == (x / k + q) * k + x % k;
    Unique(x + q * k, x / k + q, x % k, k);
  }

  /** Equal residues stay equal modulo a divisor. */
  lemma Coarser(a: int, b: int, big: int, small: int)
    requires small > 0 && big > 0 && big % small == 0 && a % big == b % big
    ensures a % small == b % small
  {
    var q := big / small;
    assert big == q * small;
    assert a == a % big + (a / big * q) * small;
    AddMultiple(a % big, a / big * q, small);
    assert b == b % big + (b / big * q) * small;
    AddMultiple(b % big, b / big * q, small);
  }
}
