/**
 * Integer and sequence helpers that reproduce Python 2 semantics where they
 * differ from Dafny's: `/` on ints rounds towards negative infinity, and a
 * slice bound or an index may be negative (counted from the end).
 */
module PyMath {
  import opened Wrappers

  function Min(a: int, b: int): int { if a <= b then a else b }

  function Max(a: int, b: int): int { if a >= b then a else b }

  /** Python 2 `a / b` on ints: the floor of the exact quotient. */
  function FloorDiv(a: int, b: int): (q: int)
    requires b != 0
    ensures b > 0 ==> q * b <= a < q * b + b
    ensures b < 0 ==> q * b + b < a <= q * b
  {
    if b > 0 then a / b else (-a) / (-b)
  }

  /** Where the slice bound `i` lands in a sequence of length `n` (`s[:i]`, `s[i:]`). */
  function SliceBound(i: int, n: nat): (j: nat)
    ensures j <= n
    ensures 0 <= i <= n ==> j == i
    ensures -(n as int) <= i < 0 ==> j == i + n
    ensures i > n ==> j == n
    ensures i < -(n as int) ==> j == 0
  {
    if i < 0 then (if i + n < 0 then 0 else i + n) else if i > n then n else i
  }

  /** Python `s[:i]`. */
  function Take<T>(s: seq<T>, i: int): seq<T> { s[..SliceBound(i, |s|)] }

  /** Python `s[i:]`. */
  function Drop<T>(s: seq<T>, i: int): seq<T> { s[SliceBound(i, |s|)..] }

  /** Python `s[i]`: `None` stands for the IndexError it raises out of range. */
  function At<T>(s: seq<T>, i: int): (r: Option<T>)
    ensures r.Some? <==> -|s| <= i < |s|
    ensures 0 <= i < |s| ==> r == Some(s[i])
    ensures -|s| <= i < 0 ==> r == Some(s[|s| + i])
  {
    if 0 <= i < |s| then Some(s[i]) else if -|s| <= i < 0 then Some(s[|s| + i]) else None
  }

  /** Splitting at any bound and joining back gives the sequence again. */
  lemma TakeDrop<T>(s: seq<T>, i: int)
    ensures Take(s, i) + Drop(s, i) == s
  {
  }

  lemma MulPred(n: int, a: int)
    ensures (n - 1) * a == n * a - a
  {
  }

  lemma MulLeft(n: int, a: int, b: int)
    ensures n * a + n * b == n * (a + b)
  {
  }

  lemma MulMono(m: int, n: int, a: int)
    requires m <= n && a >= 0
    ensures m * a <= n * a
  {
  }

  /** The floor of a / d is the one q with q * d <= a < q * d + d. */
  lemma FloorDivUnique(a: int, d: int, q: int)
    requires d > 0 && q * d <= a < q * d + d
    ensures FloorDiv(a, d) == q
  {
    var r := FloorDiv(a, d);
    if r < q {
      MulMono(r + 1, q, d);
      MulPred(r + 1, d);
    } else if r > q {
      MulMono(q + 1, r, d);
      MulPred(q + 1, d);
    }
  }
}
