/** Real arithmetic shared by every component, and the tolerance the money code uses throughout. */
module Numeric {

  const EPS: real := 0.000001

  const SECONDS_PER_DAY := 86400

  /** A product, kept from the solver where only its factors' being the same matters. */
  function Product(a: real, b: real): real {
    a * b
  }

  function Abs(x: real): real {
    if x < 0.0 then -x else x
  }

  function Max(a: real, b: real): real {
    if a < b then b else a
  }

  function Min(a: real, b: real): real {
    if a < b then a else b
  }

  function Clamp(x: real, lo: real, hi: real): real
    requires lo <= hi
  {
    if x < lo then lo else if hi < x then hi else x
  }

  lemma DivCancels(a: real, b: real)
    requires b != 0.0
    ensures b * a / b == a
    ensures a / b * b == a
  {
  }

  lemma MulMonotone(a: real, b: real, c: real)
    requires a <= b && 0.0 <= c
    ensures a * c <= b * c
  {
  }

  lemma MulStrict(a: real, b: real, c: real)
    requires a < b && 0.0 < c
    ensures a * c < b * c
  {
  }

  // ---------- integer multiples ----------

  lemma CancelLess(a: int, b: int, width: int)
    requires width > 0 && a * width < b * width
    ensures a < b
  {
    if b <= a { MulGrows(b, a, width); }
  }

  lemma MulGrows(a: int, b: int, width: int)
    requires width > 0 && a <= b
    ensures a * width <= b * width
  {
  }

  lemma QuotientUnique(ts: int, k: int, width: int)
    requires width > 0 && k * width <= ts < k * width + width
    ensures ts / width == k
  {
    var q := ts / width;
    CancelLess(q, k + 1, width);
    CancelLess(k, q + 1, width);
  }
}

/** The conventional optional value and the success-or-error value. */
module Wrappers {

  datatype Option<+T> = None | Some(value: T)

  function GetOr<T>(value: Option<T>, default: T): T {
    if value.Some? then value.value else default
  }

  datatype Result<+T, +E> = Ok(value: T) | Err(error: E)
}
