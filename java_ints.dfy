/** Java `int` division, which truncates toward zero, unlike Dafny's Euclidean `/`. */
module JavaInts {

  /** `a / b` on Java ints. */
  function Div(a: int, b: int): (q: int)
    requires b != 0
    ensures a >= 0 && b > 0 ==> q == a / b
    ensures a < 0 && b > 0 ==> q == -((-a) / b)
  {
    var q := (if a < 0 then -a else a) / (if b < 0 then -b else b);
    if (a < 0) != (b < 0) then -q else q
  }

  /** Truncation moves toward zero: the product never passes the dividend. */
  lemma DivBounds(a: int, b: int)
    requires b > 0
    ensures a >= 0 ==> b * Div(a, b) <= a < b * Div(a, b) + b
    ensures a < 0 ==> b * Div(a, b) - b < a <= b * Div(a, b)
  {
  }

  /** `c * b <= a` makes `c` at most `a / b`. */
  lemma DivAtLeast(a: int, b: int, c: int)
    requires a >= 0 && b > 0 && c * b <= a
    ensures c <= Div(a, b)
  {
    if Div(a, b) < c {
      MulLeft(b, Div(a, b) + 1, c);
      DivBounds(a, b);
    }
  }

  lemma MulLeft(b: int, x: int, y: int)
    requires b > 0 && x <= y
    ensures b * x <= b * y
  {
  }

  /** Halving after dividing by `b` is dividing by `2 * b`. */
  lemma DivTwice(a: int, b: int)
    requires a >= 0 && b > 0
    ensures Div(Div(a, b), 2) == Div(a, 2 * b)
  {
    HalfQuotient(a, b);
  }

  lemma HalfQuotient(a: int, b: int)
    requires a >= 0 && b > 0
    ensures (a / b) / 2 == a / (2 * b)
  {
    var q := a / b;
    var q2 := q / 2;
    var r := a - b * q;
    var r2 := q - 2 * q2;
    assert 0 <= r < b;
    assert 0 <= r2 < 2;
    var rem := b * r2 + r;
    assert b * q == (2 * b) * q2 + b * r2 by {
      Distribute(b, 2 * q2, r2);
      assert b * (2 * q2) == (2 * b) * q2;
    }
    assert 0 <= b * r2 < b + 1 by {
      if r2 == 0 {
        assert b * r2 == 0;
      } else {
        assert r2 == 1;
      }
    }
    assert rem < 2 * b;
    DivUnique(a, 2 * b, q2, rem);
  }

  lemma Distribute(b: int, x: int, y: int)
    ensures b * (x + y) == b * x + b * y
  {
  }

  lemma DivUnique(a: int, d: int, q: int, rem: int)
    requires d > 0 && a == d * q + rem && 0 <= rem < d
    ensures a / d == q
  {
    var q' := a / d;
    assert a == d * q' + a % d;
    if q' < q {
      MulLeft(d, q' + 1, q);
    } else if q < q' {
      MulLeft(d, q + 1, q');
    }
  }
}
