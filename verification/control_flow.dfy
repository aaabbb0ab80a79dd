/**
 * The control-flow demonstration: the `get_grade_points` switch, the
 * `break` and `continue` loops, the `goto` retry, and the nested loop of
 * `main` that skips the diagonal and breaks out of the inner loop.
 *
 * What the demonstration prints is returned as a sequence of values or
 * events; the text around the values is not modelled.
 */
module ControlFlow {
  import opened Options
  import opened DataTypes

  /** The valid grade letters in upper case, indexed by their points. */
  const GradeLetters: string := "FDCBA"

  /** Upper-case form of an ASCII lower-case letter; other characters are kept. */
  function ToUpper(c: char): char {
    if 'a' <= c <= 'z' then (c as int - 32) as char else c
  }

  predicate IsGradeLetter(c: char) {
    ToUpper(c) in GradeLetters
  }

  /**
   * `get_grade_points`: 'A'/'a' give 4, 'B'/'b' 3, 'C'/'c' 2, 'D'/'d' 1 and
   * 'F'/'f' 0: the position of the upper-case letter in "FDCBA". Every other
   * character, 'E' included, gives the sentinel -1.
   */
  function GradePoints(grade: char): (r: int)
    ensures -1 <= r < |GradeLetters|
    ensures r >= 0 <==> IsGradeLetter(grade)
    ensures r >= 0 ==> GradeLetters[r] == ToUpper(grade)
  {
    match grade
    case 'A' | 'a' => 4
    case 'B' | 'b' => 3
    case 'C' | 'c' => 2
    case 'D' | 'd' => 1
    case 'F' | 'f' => 0
    case _ => -1
  }

  /** The table of the `switch`, letter by letter. */
  lemma GradeTable()
    ensures GradePoints('A') == 4 && GradePoints('a') == 4
    ensures GradePoints('B') == 3 && GradePoints('b') == 3
    ensures GradePoints('C') == 2 && GradePoints('c') == 2
    ensures GradePoints('D') == 1 && GradePoints('d') == 1
    ensures GradePoints('F') == 0 && GradePoints('f') == 0
    ensures GradePoints('E') == -1 && GradePoints('e') == -1
  {
  }

  /** Both cases of a letter earn the same points. */
  lemma GradeCaseInsensitive(c: char)
    requires 'a' <= c <= 'z'
    ensures GradePoints(c) == GradePoints(ToUpper(c))
  {
  }

  /** `main` prints the points of a grade only when they are not negative. */
  function GradeReport(grade: char): (r: Option<int>)
    ensures r.Some? <==> IsGradeLetter(grade)
    ensures r.Some? ==> 0 <= r.value <= 4 && GradeLetters[r.value] == ToUpper(grade)
  {
    var points := GradePoints(grade);
    if points >= 0 then Some(points) else None
  }

  /** The demonstration's grade 'B' is reported as 3 points. */
  lemma StudentGradeReport()
    ensures GradeReport('B') == Some(3)
  {
  }

  predicate IsEven(i: int) {
    i % 2 == 0
  }

  /**
   * The `break` loop: walks i = lo .. hi and stops at the first even i.
   * (C's truncating `%` and the Euclidean `%` agree on whether the remainder
   * is zero.) `hi` stays below `INT_MAX` so that `i++` cannot overflow.
   */
  method FirstEven(lo: Int32, hi: Int32) returns (found: Option<int>)
    requires hi < Int32Max
    ensures found.Some? ==> lo <= found.value <= hi && IsEven(found.value)
    ensures found.Some? ==> forall k :: lo <= k < found.value ==> !IsEven(k)
    ensures found.None? ==> forall k :: lo <= k <= hi ==> !IsEven(k)
  {
    found := None;
    var i := lo;
    while i <= hi
      invariant lo <= i <= if lo <= hi then hi + 1 else lo
      invariant forall k :: lo <= k < i ==> !IsEven(k)
      decreases hi - i
    {
      if IsEven(i) {
        found := Some(i);
        break;
      }
      i := i + 1;
    }
  }

  /** The demonstration's loop over 11 .. 20 stops at 12. */
  method BreakDemo() returns (found: Option<int>)
    ensures found == Some(12)
  {
    found := FirstEven(11, 20);
    assert !IsEven(11) && IsEven(12);
  }

  /** Reference definition: the odd numbers of lo .. hi, ascending. */
  function OddsBetween(lo: int, hi: int): seq<int>
    decreases hi - lo
  {
    if lo > hi then []
    else if IsEven(lo) then OddsBetween(lo + 1, hi)
    else [lo] + OddsBetween(lo + 1, hi)
  }

  /** The odd numbers of lo .. hi, ascending, are exactly what `OddsBetween` lists. */
  lemma {:induction false} OddsBetweenSpec(lo: int, hi: int)
    ensures forall x :: x in OddsBetween(lo, hi) <==> lo <= x <= hi && !IsEven(x)
    ensures forall a, b :: 0 <= a < b < |OddsBetween(lo, hi)| ==> OddsBetween(lo, hi)[a] < OddsBetween(lo, hi)[b]
    decreases hi - lo
  {
    if lo <= hi {
      OddsBetweenSpec(lo + 1, hi);
      var tail := OddsBetween(lo + 1, hi);
      assert forall k :: 0 <= k < |tail| ==> tail[k] in tail;
    }
  }

  /** Splits the odd numbers of lo .. hi at an inner point. */
  lemma {:induction false} OddsBetweenSplit(lo: int, mid: int, hi: int)
    requires lo <= mid <= hi + 1
    ensures OddsBetween(lo, hi) == OddsBetween(lo, mid - 1) + OddsBetween(mid, hi)
    decreases mid - lo
  {
    if lo < mid {
      OddsBetweenSplit(lo + 1, mid, hi);
    }
  }

  /**
   * The `continue` loop: walks i = lo .. hi, skips the even values and
   * prints the others, so it prints exactly the odd numbers in ascending order.
   */
  method OddNumbers(lo: Int32, hi: Int32) returns (printed: seq<int>)
    requires hi < Int32Max
    ensures forall x :: x in printed <==> lo <= x <= hi && !IsEven(x)
    ensures forall a, b :: 0 <= a < b < |printed| ==> printed[a] < printed[b]
    ensures printed == OddsBetween(lo, hi)
  {
    printed := [];
    var i := lo;
    while i <= hi
      invariant lo <= i <= if lo <= hi then hi + 1 else lo
      invariant printed == OddsBetween(lo, i - 1)
      decreases hi - i
    {
      OddsBetweenSplit(lo, i, i);
      if IsEven(i) {
        i := i + 1;
        continue;
      }
      printed := printed + [i];
      i := i + 1;
    }
    OddsBetweenSpec(lo, hi);
  }

  /** The demonstration's loop over 1 .. 10 prints 1 3 5 7 9. */
  method ContinueDemo() returns (printed: seq<int>)
    ensures printed == [1, 3, 5, 7, 9]
  {
    printed := OddNumbers(1, 10);
  }

  /**
   * The `goto retry` loop: the attempt counter is bumped and printed, then
   * control jumps back while it is below `limit`. The body always runs once,
   * so exactly max(limit, 1) attempts are made, numbered 1, 2, ...
   */
  method Retry(limit: Int32) returns (attempts: int, log: seq<int>)
    ensures attempts == if limit > 1 then limit else 1
    ensures |log| == attempts
    ensures forall k :: 0 <= k < |log| ==> log[k] == k + 1
  {
    attempts := 1;
    log := [1];
    while attempts < limit
      invariant 1 <= attempts <= if limit > 1 then limit else 1
      invariant |log| == attempts
      invariant forall k :: 0 <= k < |log| ==> log[k] == k + 1
    {
      attempts := attempts + 1;
      log := log + [attempts];
    }
  }

  /** The demonstration retries until its third attempt, then falls through. */
  method GotoDemo() returns (attempts: int, log: seq<int>)
    ensures attempts == 3 && log == [1, 2, 3]
  {
    attempts, log := Retry(3);
  }

  /** What one visit of the inner loop prints. */
  datatype CellKind = Diagonal | Breaking | Plain

  /** A line of the nested loop's output. */
  datatype Event = OuterStart(row: int) | Visit(row: int, col: int, kind: CellKind)

  /**
   * Reference definition of one run of the inner loop of row `i`, from column
   * `j` up to `n`: diagonal cells are announced and skipped, the first other
   * cell whose coordinates sum past `bound` is announced and ends the row.
   */
  function InnerTrace(i: int, j: int, n: int, bound: int): seq<Event>
    decreases n - j
  {
    if j > n then []
    else if i == j then [Visit(i, j, Diagonal)] + InnerTrace(i, j + 1, n, bound)
    else if i + j > bound then [Visit(i, j, Breaking)]
    else [Visit(i, j, Plain)] + InnerTrace(i, j + 1, n, bound)
  }

  /**
   * The shape of a row: it visits consecutive columns from `j` on, marks
   * exactly the diagonal cell as such, prints plain cells only within the
   * bound, and stops before column `n` only at a cell past the bound, which
   * is the last one it prints.
   */
  lemma {:induction false} InnerTraceShape(i: int, j: int, n: int, bound: int)
    ensures var t := InnerTrace(i, j, n, bound);
      && |t| <= (if j <= n then n - j + 1 else 0)
      && (j <= n ==> |t| >= 1)
      && (forall k :: 0 <= k < |t| ==> t[k].Visit? && t[k].row == i && t[k].col == j + k)
      && (forall k :: 0 <= k < |t| ==> (t[k].kind == Diagonal <==> j + k == i))
      && (forall k :: 0 <= k < |t| && t[k].kind == Plain ==> i + j + k <= bound)
      && (forall k :: 0 <= k < |t| && t[k].kind == Breaking ==> i + j + k > bound && k == |t| - 1)
      && (j <= n && |t| < n - j + 1 ==> t[|t| - 1].kind == Breaking)
    decreases n - j
  {
    if j <= n && (i == j || i + j <= bound) {
      InnerTraceShape(i, j + 1, n, bound);
    }
  }

  /** Reference definition of the outer loop over rows i .. n. */
  function OuterTrace(i: int, n: int, bound: int): seq<Event>
    decreases n - i
  {
    if i > n then []
    else [OuterStart(i)] + InnerTrace(i, 1, n, bound) + OuterTrace(i + 1, n, bound)
  }

  /**
   * The inner loop of row `i` over columns 1 .. n: `continue` on the
   * diagonal, `break` at the first other cell whose coordinates sum past `bound`.
   * The coordinate sum `i + j` must fit in an `int`.
   */
  method InnerLoop(i: int, n: Int32, bound: Int32) returns (row: seq<Event>)
    requires 1 <= i && i + n <= Int32Max
    ensures row == InnerTrace(i, 1, n, bound)
  {
    row := [];
    var j := 1;
    while j <= n
      invariant 1 <= j <= if n >= 1 then n + 1 else 1
      invariant row + InnerTrace(i, j, n, bound) == InnerTrace(i, 1, n, bound)
      decreases n - j
    {
      if i == j {
        row := row + [Visit(i, j, Diagonal)];
        j := j + 1;
        continue;
      }
      if i + j > bound {
        row := row + [Visit(i, j, Breaking)];
        break;
      }
      row := row + [Visit(i, j, Plain)];
      j := j + 1;
    }
  }

  /**
   * The nested loop of `main`, generalised to an n-by-n grid and a break
   * bound: each row is announced and then walked by the inner loop. The
   * grid is at most half the `int` range wide, so no coordinate sum overflows.
   */
  method NestedLoops(n: Int32, bound: Int32) returns (trace: seq<Event>)
    requires n <= Int32Max / 2
    ensures trace == OuterTrace(1, n, bound)
  {
    trace := [];
    var i := 1;
    while i <= n
      invariant 1 <= i <= if n >= 1 then n + 1 else 1
      invariant trace + OuterTrace(i, n, bound) == OuterTrace(1, n, bound)
      decreases n - i
    {
      var row := InnerLoop(i, n, bound);
      trace := trace + [OuterStart(i)] + row;
      i := i + 1;
    }
  }

  /** The demonstration's 3-by-3 loop with bound 4, event by event. */
  method NestedDemo() returns (trace: seq<Event>)
    ensures trace == [
      OuterStart(1), Visit(1, 1, Diagonal), Visit(1, 2, Plain), Visit(1, 3, Plain),
      OuterStart(2), Visit(2, 1, Plain), Visit(2, 2, Diagonal), Visit(2, 3, Breaking),
      OuterStart(3), Visit(3, 1, Plain), Visit(3, 2, Breaking)]
  {
    trace := NestedLoops(3, 4);
  }
}
