/** Products and quotients of real numbers keep their order. */
module RealFacts {
  lemma MulLe(x: real, y: real, z: real)
    requires x <= y && z >= 0.0
    ensures x * z <= y * z
  {}

  lemma MulLt(x: real, y: real, z: real)
    requires x < y && z > 0.0
    ensures x * z < y * z
  {}

  // Dividing by z is the inverse of multiplying by z, for orders too.
  lemma DivLe(x: real, y: real, z: real)
    requires z > 0.0
    ensures x <= y * z <==> x / z <= y
    ensures y * z <= x <==> y <= x / z
  {
    var q := x / z;
    assert q * z == x;
    if q < y { MulLt(q, y, z); } else if y < q { MulLt(y, q, z); }
  }

  lemma DivLt(x: real, y: real, z: real)
    requires z > 0.0
    ensures x / z < y <==> x < y * z
  {
    DivLe(x, y, z);
  }
}
