/** The calculator's numbers and the promotion rules between integers and exact decimals. */
module Numbers {
  import opened Results

  /** A number is an arbitrary-precision integer or an exact decimal. Decimal arithmetic
      is exact here: the 50-digit rounding context of the source, which applies to the
      decimal results of `Add`, `Sub`, `Mul` and `Div` alike, is not modelled. */
  datatype Number = Int(i: int) | Dec(d: real)

  /** The quantity a number stands for, whatever its representation. */
  function Value(x: Number): real {
    match x
    case Int(i) => i as real
    case Dec(d) => d
  }

  /** Conversion of an integer to the decimal with the same value; a decimal is kept. */
  function ToDecimal(x: Number): (r: Number)
    ensures r.Dec? && Value(r) == Value(x)
    ensures x.Dec? ==> r == x
  {
    match x
    case Int(i) => Dec(i as real)
    case Dec(_) => x
  }

  /** Brings both operands to one representation: decimal when `forceDecimal` is set or
      either operand is a decimal, otherwise both stay integers. The flag says which. */
  function Promote(a: Number, b: Number, forceDecimal: bool): (r: (Number, Number, bool))
    ensures Value(r.0) == Value(a) && Value(r.1) == Value(b)
    ensures r.2 <==> forceDecimal || a.Dec? || b.Dec?
    ensures r.2 ==> r.0.Dec? && r.1.Dec?
    ensures !r.2 ==> r.0 == a && r.1 == b
  {
    if forceDecimal || a.Dec? || b.Dec? then (ToDecimal(a), ToDecimal(b), true)
    else (a, b, false)
  }

  function Add(a: Number, b: Number): (r: Number)
    ensures Value(r) == Value(a) + Value(b)
    ensures r.Int? <==> a.Int? && b.Int?
  {
    var (a2, b2, dec) := Promote(a, b, false);
    if dec then Dec(a2.d + b2.d) else Int(a2.i + b2.i)
  }

  function Sub(a: Number, b: Number): (r: Number)
    ensures Value(r) == Value(a) - Value(b)
    ensures r.Int? <==> a.Int? && b.Int?
  {
    var (a2, b2, dec) := Promote(a, b, false);
    if dec then Dec(a2.d - b2.d) else Int(a2.i - b2.i)
  }

  function Mul(a: Number, b: Number): (r: Number)
    ensures Value(r) == Value(a) * Value(b)
    ensures r.Int? <==> a.Int? && b.Int?
  {
    var (a2, b2, dec) := Promote(a, b, false);
    if dec then Dec(a2.d * b2.d) else Int(a2.i * b2.i)
  }

  /** Division rejects a zero divisor of either kind before promoting, and otherwise
      always yields a decimal, never a truncated integer. */
  function Div(a: Number, b: Number): (r: Result<Number>)
    ensures r.Err? <==> Value(b) == 0.0
    ensures r.Err? ==> r.error == DivisionByZero
    ensures r.Ok? ==> r.value.Dec? && Value(r.value) * Value(b) == Value(a)
  {
    if (b.Int? && b.i == 0) || (b.Dec? && b.d == 0.0) then Err(DivisionByZero)
    else
      var (a2, b2, _) := Promote(a, b, true);
      Ok(Dec(a2.d / b2.d))
  }

  /** Addition and multiplication do not depend on the order of their operands,
      neither in value nor in representation. */
  lemma AddMulCommute(a: Number, b: Number)
    ensures Add(a, b) == Add(b, a)
    ensures Mul(a, b) == Mul(b, a)
  {
  }
}
