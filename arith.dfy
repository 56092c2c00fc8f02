/** Sign facts about real products that the solver does not find unaided. */
module Arith {
  lemma ProductSign(d: real, c: real)
    requires c > 0.0
    ensures d * c > 0.0 <==> d > 0.0
    ensures d * c < 0.0 <==> d < 0.0
  {
    if d > 0.0 {
      assert d * c > 0.0;
    } else if d < 0.0 {
      calc { d * c; == -((-d) * c); < 0.0; }
    }
  }

  lemma SquarePositive(a: real)
    requires a != 0.0
    ensures a * a > 0.0
  {
    if a < 0.0 {
      calc { a * a; == (-a) * (-a); > 0.0; }
    }
  }
}
