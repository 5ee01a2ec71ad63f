/** Arithmetic on 16-bit samples: the scaling, the mixing and the (short) casts of the mixer. */
module Samples {

  // A C cast from double to an integer type drops the fraction. Outside the range of the type its
  // result is undefined; `InShort` says when it is not.
  function Trunc(x: real): int {
    if x >= 0.0 then x.Floor else -((-x).Floor)
  }

  predicate InShort(x: int) {
    -0x8000 <= x < 0x8000
  }

  // What is left of an int that is stored in a short.
  function Wrap16(x: int): (r: int)
    ensures InShort(r)
    ensures InShort(x) ==> r == x
  {
    (x + 0x8000) % 0x1_0000 - 0x8000
  }

  lemma ZeroIsShort()
    ensures Wrap16(0) == 0
  {
  }

  lemma ShortStays(x: int)
    requires InShort(x)
    ensures Wrap16(x) == x
  {
  }

  // Stores that wrap add up like stores that do not.
  lemma WrapAdds(a: int, b: int)
    ensures Wrap16(Wrap16(a) + b) == Wrap16(a + b)
  {
  }

  function Scaled(g: real, x: real): real {
    g * x
  }

  // `a` with weight `mul`, `b` with the rest.
  function Mixture(a: real, b: real, mul: real): real {
    a * mul + b * (1.0 - mul)
  }

  predicate Within(x: real, limit: real) {
    -limit <= x <= limit
  }

  lemma Product(a: real, b: real)
    requires a >= 0.0 && b >= 0.0
    ensures a * b >= 0.0
  {
  }

  lemma TruncWithin(x: real, limit: real)
    requires Within(x, limit)
    ensures Within(Trunc(x) as real, limit)
  {
  }

  lemma ScaledWithin(g: real, x: real, m: real)
    requires g >= 0.0 && Within(x, m)
    ensures Within(Scaled(g, x), Scaled(g, m))
  {
    Product(g, m - x);
    Product(g, m + x);
    assert g * (m - x) == Scaled(g, m) - Scaled(g, x);
    assert g * (m + x) == Scaled(g, m) + Scaled(g, x);
  }

  lemma MixtureWithin(a: real, b: real, mul: real, limit: real)
    requires 0.0 <= mul <= 1.0 && Within(a, limit) && Within(b, limit)
    ensures Within(Mixture(a, b, mul), limit)
  {
    ScaledWithin(mul, a, limit);
    ScaledWithin(1.0 - mul, b, limit);
    assert Mixture(a, b, mul) == Scaled(mul, a) + Scaled(1.0 - mul, b);
    assert Scaled(mul, limit) + Scaled(1.0 - mul, limit) == limit;
  }
}
