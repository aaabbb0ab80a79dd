/**
 * The modifiers demonstration: `get_status`, which maps a status code to one
 * of four constant messages, `print_array`, which walks a read-only array,
 * and the `sizeof(array) / sizeof(element)` element count.
 */
module Modifiers {
  import opened Options
  import opened DataTypes

  /** The four messages `get_status` can return. */
  const StatusMessages: set<string> := {"Success", "Warning", "Error", "Unknown"}

  /** `get_status`: a total mapping from any `int` code to a message. */
  function GetStatus(code: Int32): (r: string)
    ensures r in StatusMessages
    ensures r == "Success" <==> code == 0
    ensures r == "Warning" <==> code == 1
    ensures r == "Error" <==> code == 2
    ensures r == "Unknown" <==> code !in {0, 1, 2}
  {
    match code
    case 0 => "Success"
    case 1 => "Warning"
    case 2 => "Error"
    case _ => "Unknown"
  }

  /** Reads a message back to the code it names; "Unknown" names no single code. */
  function StatusCode(message: string): (r: Option<Int32>)
    ensures r.Some? ==> r.value in {0, 1, 2}
    ensures r.Some? <==> message in {"Success", "Warning", "Error"}
    ensures r.Some? ==> GetStatus(r.value) == message
  {
    if message == "Success" then Some(0)
    else if message == "Warning" then Some(1)
    else if message == "Error" then Some(2)
    else None
  }

  /**
   * The three named codes survive a trip through their message, and every
   * other code collapses to the one message that names none.
   */
  lemma StatusRoundTrip(code: Int32)
    ensures code in {0, 1, 2} ==> StatusCode(GetStatus(code)) == Some(code)
    ensures code !in {0, 1, 2} ==> StatusCode(GetStatus(code)) == None
  {
  }

  /** The messages of two named codes differ exactly when the codes do. */
  lemma StatusInjectiveOnNamedCodes(a: Int32, b: Int32)
    requires a in {0, 1, 2} && b in {0, 1, 2}
    ensures GetStatus(a) == GetStatus(b) <==> a == b
  {
    StatusRoundTrip(a);
    StatusRoundTrip(b);
  }

  /**
   * `print_array(arr, size)`: emits `arr[0]`, ..., `arr[size - 1]` in index
   * order; a size that is not positive prints nothing. The array is passed
   * `const`, which the immutable sequence reflects. The caller must supply
   * at least `size` elements.
   */
  method PrintArray(arr: seq<int>, size: Int32) returns (printed: seq<int>)
    requires size <= |arr|
    ensures |printed| == if size <= 0 then 0 else size
    ensures forall k :: 0 <= k < |printed| ==> printed[k] == arr[k]
  {
    printed := [];
    var i: Int32 := 0;
    while i < size
      invariant 0 <= i <= (if size >= 0 then size else 0)
      invariant i <= |arr|
      invariant |printed| == i
      invariant forall k :: 0 <= k < i ==> printed[k] == arr[k]
    {
      printed := printed + [arr[i]];
      i := i + 1;
    }
  }

  /** The demonstration's `print_array(test_array, 5)` on {1, 2, 3, 4, 5}. */
  method PrintTestArray() returns (printed: seq<int>)
    ensures printed == [1, 2, 3, 4, 5]
  {
    printed := PrintArray([1, 2, 3, 4, 5], 5);
  }

  /**
   * `sizeof(a) / sizeof(a[0])`: an array of `n` elements of `elemSize`
   * bytes occupies `n * elemSize` bytes; dividing by the element size gives
   * back the element count.
   */
  function ArrayLength(n: nat, elemSize: nat): (r: nat)
    requires elemSize > 0
    ensures r == n
  {
    assert (n * elemSize) / elemSize == n by {
      ProductDivides(n, elemSize);
    }
    (n * elemSize) / elemSize
  }

  /** `int numbers[10]` has 10 elements whatever the size of `int`. */
  lemma NumbersLength(intSize: nat)
    requires intSize > 0
    ensures ArrayLength(10, intSize) == 10
  {
  }
}
