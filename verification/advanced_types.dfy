/**
 * The advanced-types demonstration: the `Day` and `Status` enumerations with
 * their integer values, the weekday/TGIF/weekend `switch`, and the `add` and
 * `multiply` functions called through the `Calculator` function-pointer type.
 */
module AdvancedTypes {
  import opened Options
  import opened DataTypes

  /** `enum Day`, in declaration order. */
  datatype Day = Monday | Tuesday | Wednesday | Thursday | Friday | Saturday | Sunday

  /** The days in the order the enumeration declares them. */
  const Week: seq<Day> := [Monday, Tuesday, Wednesday, Thursday, Friday, Saturday, Sunday]

  /** The integer an implicitly numbered enumerator takes: its declaration position. */
  function DayValue(d: Day): (v: int)
    ensures 0 <= v < |Week|
    ensures Week[v] == d
  {
    match d
    case Monday => 0
    case Tuesday => 1
    case Wednesday => 2
    case Thursday => 3
    case Friday => 4
    case Saturday => 5
    case Sunday => 6
  }

  /** The day an integer denotes, if any. */
  function DayOf(v: int): (r: Option<Day>)
    ensures r.Some? <==> 0 <= v < |Week|
  {
    if 0 <= v < |Week| then Some(Week[v]) else None
  }

  /** Enumerator values and days are in one-to-one correspondence over 0..6. */
  lemma DayRoundTrip(d: Day, v: int)
    ensures DayOf(DayValue(d)) == Some(d)
    ensures DayOf(v).Some? ==> DayValue(DayOf(v).value) == v
  {
    if DayOf(v).Some? {
      var w := DayValue(Week[v]);
      assert Week[w] == Week[v];
    }
  }

  /** `enum Status`, whose enumerators carry explicit values. */
  datatype Status = Error | Success | Pending | Complete

  function StatusValue(s: Status): (v: int)
    ensures v == -1 <==> s == Error
    ensures v == 0 <==> s == Success
    ensures v == 1 <==> s == Pending
    ensures v == 2 <==> s == Complete
  {
    match s
    case Error => -1
    case Success => 0
    case Pending => 1
    case Complete => 2
  }

  /** The status an integer denotes, if any. */
  function StatusOf(v: int): (r: Option<Status>)
    ensures r.Some? <==> -1 <= v <= 2
  {
    match v
    case -1 => Some(Error)
    case 0 => Some(Success)
    case 1 => Some(Pending)
    case 2 => Some(Complete)
    case _ => None
  }

  /** Status values and statuses are in one-to-one correspondence over -1..2. */
  lemma StatusRoundTrip(s: Status, v: int)
    ensures StatusOf(StatusValue(s)) == Some(s)
    ensures StatusOf(v).Some? ==> StatusValue(StatusOf(v).value) == v
  {
  }

  /** The three branches of the demonstration's `switch (today)`. */
  datatype DayKind = Weekday | Tgif | Weekend

  /**
   * The day classification: Monday to Thursday are weekdays, Friday is
   * "TGIF", Saturday and Sunday are the weekend. Every day lands in exactly
   * one branch, since the result is a single value.
   */
  function Classify(d: Day): (k: DayKind)
    ensures k == Weekday <==> DayValue(d) <= 3
    ensures k == Tgif <==> DayValue(d) == 4
    ensures k == Weekend <==> DayValue(d) >= 5
  {
    match d
    case Monday | Tuesday | Wednesday | Thursday => Weekday
    case Friday => Tgif
    case Saturday | Sunday => Weekend
  }

  /** The demonstration's `today = FRIDAY` takes the "TGIF" branch, with value 4. */
  lemma TodayIsTgif()
    ensures Classify(Friday) == Tgif && DayValue(Friday) == 4
  {
  }

  /** `add`, defined when the sum fits in an `int`. */
  function Add(a: Int32, b: Int32): (r: Int32)
    requires Int32Min <= a + b <= Int32Max
    ensures r - a == b
  {
    a + b
  }

  /** `multiply`, defined when the product fits in an `int`. */
  function Multiply(a: Int32, b: Int32): (r: Int32)
    requires Int32Min <= a * b <= Int32Max
    ensures b == 0 ==> r == 0
    ensures b != 0 ==> r / b == a && r % b == 0
    ensures r == 0 <==> a == 0 || b == 0
  {
    ProductDivides(a, b);
    a * b
  }

  /** `typedef int (*Calculator)(int, int)`: a partial function of two `int`s. */
  type Calculator = (Int32, Int32) --> Int32

  /**
   * The demonstration's `calc_func`: first pointed at `add`, then at
   * `multiply`, each called with (5, 3). A call through the pointer gives
   * what a direct call gives.
   */
  method CalculatorDemo() returns (sum: Int32, product: Int32)
    ensures sum == 8 && product == 15
  {
    var calcFunc: Calculator := Add;
    sum := calcFunc(5, 3);
    assert sum == Add(5, 3);
    calcFunc := Multiply;
    product := calcFunc(5, 3);
    assert product == Multiply(5, 3);
  }
}
