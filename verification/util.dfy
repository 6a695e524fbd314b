/** Small shared vocabulary: optional values, results with an error, and
    facts about index tables and Python's `range`. */
module Util {

  datatype Option<T> = None | Some(value: T)

  /** A computation that either yields a value or fails the way the Python
      code raises an exception. */
  datatype Result<T, E> = Ok(value: T) | Err(error: E)

  /** Every entry of `s` is a valid row number of a table with `n` rows. */
  predicate AllBelow(s: seq<int>, n: int)
  {
    forall k :: 0 <= k < |s| ==> 0 <= s[k] < n
  }

  /** Number of iterations of Python's `range(n)`: empty for negative `n`. */
  function RangeLen(n: int): (r: nat)
    ensures n >= 0 ==> r == n
    ensures n < 0 ==> r == 0
  {
    if n < 0 then 0 else n
  }

  /** Monotonicity of multiplication by a natural number, used for
      row-major index arithmetic. */
  lemma MulMono(a: nat, b: nat, c: nat)
    requires a <= b
    ensures a * c <= b * c
  {
  }

  /** Distributing a successor over a product. */
  lemma MulSucc(a: nat, b: nat)
    ensures (a + 1) * b == a * b + b
  {
  }

  /** Quotient and remainder of `q * d + r` by `d` when `0 <= r < d`. */
  lemma DivModOf(q: nat, d: nat, r: nat)
    requires 0 <= r < d
    ensures (q * d + r) / d == q
    ensures (q * d + r) % d == r
  {
    var x := q * d + r;
    var q' := x / d;
    var r' := x % d;
    assert x == q' * d + r';
    if q' > q {
      MulMono(q + 1, q', d);
      assert false;
    } else if q' < q {
      MulMono(q' + 1, q, d);
      assert false;
    }
  }

  /** The slot after `i` in a ring of `n`: the last one wraps to 0. */
  function NextIndex(i: nat, n: nat): (r: nat)
    requires i < n
    ensures r < n
  {
    if i == n - 1 then 0 else i + 1
  }

  /** `NextIndex` is the step `(i + 1) mod n`, taken from any remainder. */
  lemma NextOfMod(x: nat, n: nat)
    requires n > 0
    ensures x % n < n
    ensures NextIndex(x % n, n) == (x + 1) % n
  {
    var q, r := x / n, x % n;
    assert x == q * n + r;
    if r + 1 < n {
      DivModOf(q, n, r + 1);
    } else {
      MulSucc(q, n);
      DivModOf(q + 1, n, 0);
    }
  }

  /** Adding the modulus does not change a remainder. */
  lemma ModShift(x: nat, n: nat)
    requires n > 0
    ensures (x + n) % n == x % n
  {
    var q, r := x / n, x % n;
    assert x == q * n + r;
    MulSucc(q, n);
    DivModOf(q + 1, n, r);
  }

  /** The index after `i` is `(i + 1) mod n`. */
  lemma NextIndexWraps(i: nat, n: nat)
    requires i < n
    ensures NextIndex(i, n) == (i + 1) % n
  {
    DivModOf(0, n, i);
    NextOfMod(i, n);
  }

  /** The slot `k` steps of `NextIndex` after `i`. */
  function Later(i: nat, k: nat, n: nat): (r: nat)
    requires i < n
    ensures r < n
  {
    if k == 0 then i else NextIndex(Later(i, k - 1, n), n)
  }

  /** `k` wrapping steps from `i` land on `(i + k) mod n`. */
  lemma {:induction false} LaterIsMod(i: nat, k: nat, n: nat)
    requires i < n
    ensures Later(i, k, n) == (i + k) % n
  {
    if k == 0 {
      DivModOf(0, n, i);
    } else {
      LaterIsMod(i, k - 1, n);
      NextOfMod(i + k - 1, n);
    }
  }

  /** `n` steps round a ring of `n` come back to the start. */
  lemma LaterFullCircle(i: nat, n: nat)
    requires i < n
    ensures Later(i, n, n) == i
  {
    LaterIsMod(i, n, n);
    DivModOf(1, n, i);
  }
}
