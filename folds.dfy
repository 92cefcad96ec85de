/** The four list folds of the calculator (sum, subtraction, product, division), each a
    loop that updates an accumulator with the promoting operators. */
module Folds {
  import opened Results
  import opened Numbers

  /** Sum of the values of `nums`. */
  function Total(nums: seq<Number>): real {
    if nums == [] then 0.0 else Total(nums[..|nums| - 1]) + Value(nums[|nums| - 1])
  }

  /** Product of the values of `nums`. */
  function Product(nums: seq<Number>): real {
    if nums == [] then 1.0 else Product(nums[..|nums| - 1]) * Value(nums[|nums| - 1])
  }

  predicate AllInts(nums: seq<Number>) {
    forall k :: 0 <= k < |nums| ==> nums[k].Int?
  }

  /** Some element after the first one, a divisor of the division fold, is zero. */
  predicate HasZeroDivisor(nums: seq<Number>) {
    exists k :: 1 <= k < |nums| && Value(nums[k]) == 0.0
  }

  /** Sum fold: starts from the integer 0. */
  method SumAll(nums: seq<Number>) returns (acc: Number)
    ensures Value(acc) == Total(nums)
    ensures acc.Int? <==> AllInts(nums)
  {
    acc := Int(0);
    for k := 0 to |nums|
      invariant Value(acc) == Total(nums[..k])
      invariant acc.Int? <==> AllInts(nums[..k])
    {
      assert nums[..k + 1][..k] == nums[..k];
      acc := Add(acc, nums[k]);
    }
    assert nums[..|nums|] == nums;
  }

  /** Subtraction fold: 0 for no operands, otherwise the first minus all the others. */
  method SubtractAll(nums: seq<Number>) returns (acc: Number)
    ensures nums == [] ==> acc == Int(0)
    ensures nums != [] ==> Value(acc) == Value(nums[0]) - Total(nums[1..])
    ensures acc.Int? <==> AllInts(nums)
  {
    if nums == [] {
      return Int(0);
    }
    acc := nums[0];
    for k := 1 to |nums|
      invariant Value(acc) == Value(nums[0]) - Total(nums[1..k])
      invariant acc.Int? <==> AllInts(nums[..k])
    {
      assert nums[1..k + 1][..k - 1] == nums[1..k];
      assert nums[..k + 1][..k] == nums[..k];
      acc := Sub(acc, nums[k]);
    }
    assert nums[..|nums|] == nums;
  }

  /** Product fold: starts from the integer 1. */
  method MultiplyAll(nums: seq<Number>) returns (acc: Number)
    ensures Value(acc) == Product(nums)
    ensures acc.Int? <==> AllInts(nums)
  {
    acc := Int(1);
    for k := 0 to |nums|
      invariant Value(acc) == Product(nums[..k])
      invariant acc.Int? <==> AllInts(nums[..k])
    {
      assert nums[..k + 1][..k] == nums[..k];
      acc := Mul(acc, nums[k]);
    }
    assert nums[..|nums|] == nums;
  }

  /** Division fold: 0 for no operands, the first operand itself when it is alone, and
      otherwise a decimal quotient; it fails as soon as a divisor is zero. */
  method DivideAll(nums: seq<Number>) returns (r: Result<Number>)
    ensures nums == [] ==> r == Ok(Int(0))
    ensures r.Err? <==> HasZeroDivisor(nums)
    ensures r.Err? ==> r.error == DivisionByZero
    ensures r.Ok? && |nums| == 1 ==> r.value == nums[0]
    ensures r.Ok? && |nums| >= 2 ==> r.value.Dec? && Value(r.value) * Product(nums[1..]) == Value(nums[0])
  {
    if nums == [] {
      return Ok(Int(0));
    }
    var acc := nums[0];
    for k := 1 to |nums|
      invariant !HasZeroDivisor(nums[..k])
      invariant Value(acc) * Product(nums[1..k]) == Value(nums[0])
      invariant k == 1 ==> acc == nums[0]
      invariant k >= 2 ==> acc.Dec?
    {
      var q := Div(acc, nums[k]);
      if q.Err? {
        assert Value(nums[k]) == 0.0;
        return q;
      }
      assert nums[1..k + 1][..k - 1] == nums[1..k];
      ghost var p := Product(nums[1..k]);
      assert Product(nums[1..k + 1]) == p * Value(nums[k]);
      calc {
        Value(q.value) * (p * Value(nums[k]));
        (Value(q.value) * Value(nums[k])) * p;
        Value(acc) * p;
      }
      assert Value(nums[k]) != 0.0;
      acc := q.value;
    }
    assert nums[..|nums|] == nums;
    r := Ok(acc);
  }
}
