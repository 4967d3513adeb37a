/** Value types shared by the whole model: an optional value, the status codes the
    driver returns, and the fixed-width integers of the C++ source written out as
    bounded integers with explicit two's-complement conversions. */
module Base {

  datatype Option<+T> = None | Some(value: T)

  /** The errno values the driver passes to ReportError, and a failed port call. */
  datatype Errno = EINVAL | ERANGE | ENODEV | EBUSY | EPERM | EIO | PortFailure

  /** A status return: 0 in the source, or a reported failure. */
  datatype Status = Ok | Err(errno: Errno)

  /** uint8_t */
  newtype byte = x: int | 0 <= x < 0x100

  /** uint16_t */
  newtype uint16 = x: int | 0 <= x < 0x1_0000

  /** int16_t */
  newtype int16 = x: int | -0x8000 <= x < 0x8000

  const TWO16: int := 0x1_0000
  const TWO32: int := 0x1_0000_0000
  const TWO64: int := 0x1_0000_0000_0000_0000

  /** Conversion of an int to int16_t: keep the value modulo 2^16 and read it as
      two's complement. */
  function Wrap16(x: int): (r: int16)
    ensures (r as int - x) % TWO16 == 0
    ensures -0x8000 <= x < 0x8000 ==> r as int == x
  {
    ((x + 0x8000) % TWO16 - 0x8000) as int16
  }

  /** Conversion of an int to int32_t (two's complement, modulo 2^32). */
  function Wrap32(x: int): (r: int)
    ensures -0x8000_0000 <= r < 0x8000_0000
    ensures (r - x) % TWO32 == 0
    ensures -0x8000_0000 <= x < 0x8000_0000 ==> r == x
  {
    (x + 0x8000_0000) % TWO32 - 0x8000_0000
  }

  /** Subtraction of two uint64_t values (modulo 2^64). */
  function Sub64(a: nat, b: nat): (r: nat)
    requires a < TWO64 && b < TWO64
    ensures r < TWO64
    ensures b <= a ==> r == a - b
    ensures a < b ==> r == a - b + TWO64
  {
    (a - b) % TWO64
  }

  /** Narrowing to int32_t after every addition is the same as narrowing once. */
  lemma Wrap32Add(a: int, b: int)
    ensures Wrap32(Wrap32(a) + b) == Wrap32(a + b)
  {
    var ra := Wrap32(a);
    assert (ra + b + 0x8000_0000) % TWO32 == (a + b + 0x8000_0000) % TWO32 by {
      assert (ra - a) % TWO32 == 0;
    }
  }
}

/** Facts about multiplication and Euclidean division by a variable, which the
    solver does not find by itself. */
module Arith {

  lemma {:induction false} MulAtLeast(x: nat, d: nat)
    requires x >= 1
    ensures x * d >= d
  {
    if x > 1 {
      MulAtLeast(x - 1, d);
      assert x * d == (x - 1) * d + d;
    }
  }

  lemma MulSucc(a: int, d: int)
    ensures (a + 1) * d == a * d + d
  {
  }

  /** Multiplying by a positive d keeps a strict order, with a gap of at least d. */
  lemma MulLess(a: int, b: int, d: int)
    requires d > 0 && a < b
    ensures a * d + d <= b * d
  {
    MulAtLeast(b - a, d);
    assert (b - a) * d == b * d - a * d;
  }

  /** Multiplying by a non-negative d keeps a weak order. */
  lemma MulMono(a: int, b: int, d: int)
    requires d >= 0 && a <= b
    ensures a * d <= b * d
  {
    if a < b && d > 0 {
      MulLess(a, b, d);
    }
  }

  /** Division by a divisor the solver sees only as positive; dividing by a product
      directly makes even the sign of the quotient expensive to establish. */
  function Quot(p: nat, d: nat): nat
    requires d > 0
  {
    p / d
  }

  /** Euclidean division has one quotient and one remainder. */
  lemma DivModUnique(p: int, d: int, q: int, r: int)
    requires d > 0 && 0 <= r < d && p == q * d + r
    ensures p / d == q && p % d == r
  {
    var q', r' := p / d, p % d;
    assert p == q' * d + r';
    if q' > q {
      MulLess(q, q', d);
    } else if q' < q {
      MulLess(q', q, d);
    }
  }
}
