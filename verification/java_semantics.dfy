/**
 The fragment of Java's semantics the benchmark driver depends on: exceptions as
 values, `int` division and remainder (which truncate toward zero and throw on a
 zero divisor), and the 32-bit wrap-around of `int` arithmetic.
 */
module JavaSemantics {

  /** The Java exceptions the modelled code can raise. */
  datatype JavaException = ArithmeticException | IndexOutOfBoundsException | IOException(message: string)

  /** A value, or the exception that was thrown instead of producing it. */
  datatype Result<+T> = Ok(value: T) | Err(error: JavaException)

  datatype Option<+T> = None | Some(value: T)

  const INT_MIN: int := -0x8000_0000
  const INT_MAX: int := 0x7FFF_FFFF
  const LONG_MAX: int := 0x7FFF_FFFF_FFFF_FFFF
  const TWO_TO_32: int := 0x1_0000_0000

  /** x is a value of Java's `int` type. */
  predicate IsInt(x: int) {
    INT_MIN <= x <= INT_MAX
  }

  /** x is a value of Java's `long` type. */
  predicate IsLong(x: int) {
    -LONG_MAX - 1 <= x <= LONG_MAX
  }

  function Abs(x: int): nat {
    if x < 0 then -x else x
  }

  /** Java's `a / b` on integers: the quotient rounded toward zero; a zero
      divisor throws ArithmeticException. */
  function Div(a: int, b: int): (r: Result<int>)
    ensures r.Err? <==> b == 0
    ensures r.Err? ==> r.error == ArithmeticException
  {
    if b == 0 then Err(ArithmeticException)
    else if (a < 0) == (b < 0) then Ok(Abs(a) / Abs(b))
    else Ok(-(Abs(a) / Abs(b)))
  }

  /** Java's `a % b` on integers: the remainder takes the sign of the dividend;
      a zero divisor throws ArithmeticException. */
  function Rem(a: int, b: int): (r: Result<int>)
    ensures r.Err? <==> b == 0
    ensures r.Err? ==> r.error == ArithmeticException
  {
    if b == 0 then Err(ArithmeticException)
    else if a < 0 then Ok(-(Abs(a) % Abs(b)))
    else Ok(Abs(a) % Abs(b))
  }

  /** The identity Java guarantees for its integer division and remainder
      (section 15.17.3 of the Java Language Specification): (a/b)*b + a%b == a,
      the remainder is smaller than the divisor in magnitude and never has the
      opposite sign of the dividend, and the quotient rounds toward zero. */
  lemma DivRemIdentity(a: int, b: int)
    requires b != 0
    ensures Div(a, b).value * b + Rem(a, b).value == a
    ensures Abs(Rem(a, b).value) < Abs(b)
    ensures a >= 0 ==> Rem(a, b).value >= 0
    ensures a <= 0 ==> Rem(a, b).value <= 0
    ensures Abs(Div(a, b).value) * Abs(b) <= Abs(a)
  {
    var A, B := Abs(a), Abs(b);
    var q0: int, r0: int := A / B, A % B;
    EuclidNat(A, B);
    var q, r := Div(a, b).value, Rem(a, b).value;
    assert r == (if a < 0 then -r0 else r0);
    if (a < 0) == (b < 0) {
      assert q == q0;
      SignedProduct(q0, B, b);
    } else {
      assert q == -q0;
      SignedProduct(-q0, B, b);
    }
  }

  lemma EuclidNat(A: nat, B: nat)
    requires B > 0
    ensures A == (A / B) * B + A % B && 0 <= A % B < B && A / B >= 0
  {
  }

  /** q * b written through |b|. */
  lemma SignedProduct(q: int, B: nat, b: int)
    requires B == Abs(b)
    ensures q * b == (if b < 0 then -(q * B) else q * B)
  {
    if b < 0 {
      NegateProduct(q, B);
    }
  }

  lemma NegateProduct(x: int, y: int)
    ensures (-x) * y == -(x * y) && x * (-y) == -(x * y) && (-x) * (-y) == x * y
  {
  }

  /** The `int` Java obtains from the mathematical value x: its low 32 bits read
      in two's complement. */
  function Wrap32(x: int): (r: int)
    ensures IsInt(r)
    ensures (r - x) % TWO_TO_32 == 0
    ensures IsInt(x) ==> r == x
  {
    var m := x % TWO_TO_32;
    if m > INT_MAX then m - TWO_TO_32 else m
  }
}
