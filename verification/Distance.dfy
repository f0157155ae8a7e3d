/** Distances in the plane, compared through their squares. */
module Distance {
  import opened Variance

  datatype Spot = Spot(x: real, y: real)

  function SquaredDistance(a: Spot, b: Spot): real {
    Square(b.x - a.x) + Square(b.y - a.y)
  }

  /** The distance from a to b is at most `length`. */
  predicate Within(a: Spot, b: Spot, length: real) {
    length >= 0.0 && SquaredDistance(a, b) <= Square(length)
  }

  lemma {:induction false} Cancel(p: real, d: real)
    requires p > 0.0 && Times(p, d) <= Square(p)
    ensures d <= p
  {
    assert d > p ==> p * d > p * p;
  }

  lemma {:induction false} Distribute(p: real, u: real, v: real)
    ensures Times(p, u + v) == Times(p, u) + Times(p, v)
  {
  }

  lemma {:induction false} TimesMonotone(p: real, s: real, t: real)
    requires p >= 0.0 && s <= t
    ensures Times(p, s) <= Times(p, t)
  {
    assert p * (t - s) >= 0.0;
  }

  lemma {:induction false} TwiceProduct(u: real, v: real)
    ensures 2.0 * Times(u, v) <= Square(u) + Square(v)
  {
    SquareSign(u - v);
    assert (u - v) * (u - v) == u * u + v * v - 2.0 * (u * v);
  }

  lemma {:induction false} SquareOfProduct(m: real, a: real)
    ensures Square(Times(m, a)) == Times(Square(m), Square(a))
  {
    assert (m * a) * (m * a) == (m * m) * (a * a);
  }

  lemma {:induction false} Regroup(l: real, m: real, a: real, b: real)
    ensures Times(Times(m, a), Times(l, b)) == Times(Times(l, m), Times(a, b))
  {
    assert (m * a) * (l * b) == (l * m) * (a * b);
  }

  /** One coordinate. */
  lemma {:induction false} OneCoordinate(a: real, b: real, l: real, m: real)
    ensures 2.0 * Times(Times(l, m), Times(a, b)) <= Times(Square(m), Square(a)) + Times(Square(l), Square(b))
  {
    hide Times, Square;
    TwiceProduct(Times(m, a), Times(l, b));
    Regroup(l, m, a, b);
    SquareOfProduct(m, a);
    SquareOfProduct(l, b);
  }

  /** Cauchy-Schwarz: the inner product is at most the product of the lengths. */
  lemma {:induction false} InnerProduct(a1: real, a2: real, b1: real, b2: real, l: real, m: real)
    requires l > 0.0 && m > 0.0
    requires Square(a1) + Square(a2) <= Square(l) && Square(b1) + Square(b2) <= Square(m)
    ensures Times(a1, b1) + Times(a2, b2) <= Times(l, m)
  {
    TimesPositive(l, m);
    SquareSign(l);
    SquareSign(m);
    hide Times, Square;
    OneCoordinate(a1, b1, l, m);
    OneCoordinate(a2, b2, l, m);
    Distribute(Square(m), Square(a1), Square(a2));
    Distribute(Square(l), Square(b1), Square(b2));
    TimesMonotone(Square(m), Square(a1) + Square(a2), Square(l));
    TimesMonotone(Square(l), Square(b1) + Square(b2), Square(m));
    Distribute(Times(l, m), Times(a1, b1), Times(a2, b2));
    SquareOfProduct(l, m);
    Commute(Square(m), Square(l));
    Cancel(Times(l, m), Times(a1, b1) + Times(a2, b2));
  }

  lemma {:induction false} Commute(u: real, v: real)
    ensures Times(u, v) == Times(v, u)
  {
  }

  lemma {:induction false} SquareOfSum(u: real, v: real)
    ensures Square(u + v) == Square(u) + Square(v) + 2.0 * Times(u, v)
  {
    assert (u + v) * (u + v) == u * u + v * v + 2.0 * (u * v);
  }

  /** A leg of length zero does not move. */
  lemma {:induction false} ZeroLeg(a: Spot, b: Spot)
    requires Within(a, b, 0.0)
    ensures a == b
  {
    SquareSign(0.0);
    SquareSign(b.x - a.x);
    SquareSign(b.y - a.y);
  }

  /** The triangle inequality. */
  lemma {:induction false} Triangle(a: Spot, b: Spot, c: Spot, l: real, m: real)
    requires Within(a, b, l) && Within(b, c, m)
    ensures Within(a, c, l + m)
  {
    if l == 0.0 {
      ZeroLeg(a, b);
    } else if m == 0.0 {
      ZeroLeg(b, c);
    } else {
      var x1, y1, x2, y2 := b.x - a.x, b.y - a.y, c.x - b.x, c.y - b.y;
      InnerProduct(x1, y1, x2, y2, l, m);
      SquareOfSum(x1, x2);
      SquareOfSum(y1, y2);
      SquareOfSum(l, m);
      assert c.x - a.x == x1 + x2 && c.y - a.y == y1 + y2;
    }
  }
}
