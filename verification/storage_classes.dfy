/**
 * The storage-class demonstration: `fast_calculation`, a `register` summation
 * loop, and `count_calls`, whose `static` local counter persists between calls.
 * The counter is an explicit state value threaded through the calls.
 */
module StorageClasses {
  import opened DataTypes

  /** Reference definition: 1 + 2 + ... + n, and 0 when n is not positive. */
  function Triangular(n: int): int
    decreases if n < 0 then 0 else n
  {
    if n <= 0 then 0 else Triangular(n - 1) + n
  }

  /** Gauss's closed form of the triangular sum. */
  lemma {:induction false} TriangularClosedForm(n: int)
    ensures n >= 0 ==> Triangular(n) == n * (n + 1) / 2
    ensures n <= 0 ==> Triangular(n) == 0
  {
    if n > 0 {
      TriangularClosedForm(n - 1);
      assert (n - 1) * n + 2 * n == n * (n + 1);
    }
  }

  /** The sum only grows along the loop, so every partial sum is bounded by the last. */
  lemma {:induction false} TriangularMonotone(m: int, n: int)
    requires m <= n
    ensures Triangular(m) <= Triangular(n)
  {
    if m < n && n > 0 {
      TriangularMonotone(m, n - 1);
    }
  }

  /**
   * `fast_calculation(n)`: adds i for i = 1 .. n. For n <= 0 the loop body never
   * runs. The precondition rules out a signed overflow of `sum`, which C
   * leaves undefined; it bounds only positive n.
   */
  method FastCalculation(n: Int32) returns (sum: Int32)
    requires n <= 0 || n * (n + 1) / 2 <= Int32Max
    ensures n <= 0 ==> sum == 0
    ensures n >= 0 ==> sum == n * (n + 1) / 2
  {
    TriangularClosedForm(n);
    sum := 0;
    var i: Int32 := 1;
    while i <= n
      invariant 1 <= i <= (if n >= 1 then n + 1 else 1)
      invariant sum == Triangular(i - 1)
      decreases n - i
    {
      TriangularMonotone(i, n);
      sum := sum + i;
      i := i + 1;
    }
  }

  /** The demonstration's call `fast_calculation(100)` prints 5050. */
  method SumToHundred() returns (result: Int32)
    ensures result == 5050
  {
    result := FastCalculation(100);
  }

  /** The `static int call_count` of `count_calls`, initialised once to 0. */
  datatype CallCounter = CallCounter(callCount: Int32)

  const FreshCounter := CallCounter(0)

  /**
   * One call of `count_calls`: the persistent count goes up by one and the
   * new value is the one reported. Calls beyond `INT_MAX` would overflow.
   */
  function CountCalls(c: CallCounter): (r: (CallCounter, Int32))
    requires c.callCount < Int32Max
    ensures r.0.callCount == c.callCount + 1
    ensures r.1 == r.0.callCount
  {
    var next := c.callCount + 1;
    (CallCounter(next), next)
  }

  /**
   * The counter after `k` calls from a fresh start: it has counted exactly
   * `k`, so the k-th call reported k.
   */
  function CallsMade(k: nat): (c: CallCounter)
    requires k <= Int32Max
    ensures c.callCount == k
  {
    if k == 0 then FreshCounter else CountCalls(CallsMade(k - 1)).0
  }

  /** In the demonstration the fourth call, after three earlier ones, reports 4. */
  lemma FourthCallReportsFour()
    ensures CountCalls(CallsMade(3)).1 == 4
  {
  }
}
