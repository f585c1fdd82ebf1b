/**
 gpcm/ecdsa.go, point part: affine arithmetic on y^2 + xy = x^3 + x^2 + b over the field
 of 2^233 elements (curve B-233 of FIPS 186-4, appendix D.1.3.2).  The all-zero point
 marks the point at infinity.  b never occurs in the formulas, so every result below
 holds for any b.
 */
module Curve {
  import opened BinaryField
  import opened FieldBytes

  datatype Point = Point(x: Elt, y: Elt)

  const INFINITY := Point(Zero(), Zero())

  ghost predicate OnCurve(p: Point, b: Elt) {
    Add(Sq(p.y), Mul(p.x, p.y)) == Add(Add(Mul(p.x, Sq(p.x)), Sq(p.x)), b)
  }

  ghost predicate CurveOrInfinity(p: Point, b: Elt) {
    p == INFINITY || OnCurve(p, b)
  }

  /** The other point with the same x. */
  function Neg(p: Point): Point {
    Point(p.x, Add(p.y, p.x))
  }

  /** What the two sides of the curve equation differ by. */
  function Defect(p: Point, b: Elt): Elt {
    Add(Add(Sq(p.y), Mul(p.x, p.y)), Add(Add(Mul(p.x, Sq(p.x)), Sq(p.x)), b))
  }

  /** m, p and q are on one line, for p and q with different x. */
  ghost predicate OnLine(p: Point, q: Point, m: Point) {
    Mul(Add(p.y, q.y), Add(m.x, p.x)) == Mul(Add(m.y, p.y), Add(p.x, q.x))
  }

  /** m is on the tangent at p; the partial derivatives of the equation there are x^2 + y and x. */
  ghost predicate OnTangent(p: Point, m: Point) {
    Mul(Add(Sq(p.x), p.y), Add(m.x, p.x)) == Mul(Add(m.y, p.y), p.x)
  }

  /** The one fact about the field this code takes on trust: the power 2^233 - 2 inverts. */
  ghost predicate InverseLaw() {
    forall u: Elt :: u != Zero() ==> Mul(u, Inv(u)) == One()
  }

  // ---------- What the three point operations compute

  function Double(p: Point): Point {
    if p.x == Zero() then INFINITY
    else
      var s := Add(Mul(p.y, Inv(p.x)), p.x);
      var rx := Add(Add(Sq(s), s), One());
      Point(rx, Add(Add(Mul(s, rx), rx), Sq(p.x)))
  }

  function Plus(p: Point, q: Point): Point {
    if p == INFINITY then q
    else if q == INFINITY then p
    else if p.x == q.x then (if p.y == q.y then Double(p) else INFINITY)
    else
      var s := Mul(Inv(Add(p.x, q.x)), Add(p.y, q.y));
      var t := Add(Add(Add(Sq(s), s), q.x), One());
      var rx := Add(t, p.x);
      Point(rx, Add(Add(Mul(s, t), p.y), rx))
  }

  /** Double and add over the bits of the scalar, highest first. */
  function Times(bits: seq<bool>, p: Point): Point {
    if bits == [] then INFINITY else DoubleAndAdd(Times(bits[..|bits| - 1], p), p, bits[|bits| - 1])
  }

  function DoubleAndAdd(d: Point, p: Point, add: bool): Point {
    if add then Plus(Double(d), p) else Double(d)
  }

  // ---------- The tangent

  lemma AddCancel(a: Elt, b: Elt)
    ensures Add(Add(a, b), b) == a && Add(b, Add(b, a)) == a
    ensures a == b <==> Add(a, b) == Zero()
  {
    if Add(a, b) == Zero() {
      assert forall i :: 0 <= i < DEGREE ==> a[i] == (Add(a, b)[i] != b[i]);
    }
  }

  /** With y = s*x + x^2, the curve equation says b = x^2 * (s^2 + s + 1) + x^4. */
  lemma TangentEquation(x: Elt, y: Elt, s: Elt, rx: Elt, b: Elt)
    requires OnCurve(Point(x, y), b)
    requires y == Add(Mul(s, x), Sq(x))
    requires rx == Add(Add(Sq(s), s), One())
    ensures b == Add(Mul(Sq(x), rx), Sq(Sq(x)))
  {
    hide Act;
    var x2 := Sq(x);
    var sx := Mul(s, x);
    SqAdd(sx, x2);
    assert Sq(sx) == Mul(x2, Sq(s)) by {
      ProductSquare(s, x);
      MulComm(Sq(s), x2);
    }
    assert Mul(x, y) == Add(Mul(x2, s), Mul(x, x2)) by {
      MulDistr(x, sx, x2);
      MulComm(s, x);
      MulAssoc(x, x, s);
    }
    MulDistr(x2, Add(Sq(s), s), One());
    MulDistr(x2, Sq(s), s);
    MulUnit(x2);
    var a1, a2, a3, a4 := Mul(x2, Sq(s)), Sq(x2), Mul(x2, s), Mul(x, x2);
    assert Sq(y) == Add(a1, a2) && Mul(x, y) == Add(a3, a4);
    SolveForB(a1, a2, a3, a4, x2, b);
  }

  lemma SolveForB(a1: Elt, a2: Elt, a3: Elt, a4: Elt, x2: Elt, b: Elt)
    requires Add(Add(a1, a2), Add(a3, a4)) == Add(Add(a4, x2), b)
    ensures b == Add(Add(Add(a1, a3), x2), a2)
  {
    var r := Add(Add(Add(a1, a3), x2), a2);
    forall i | 0 <= i < DEGREE
      ensures b[i] == r[i]
    {
      assert Add(Add(a1, a2), Add(a3, a4))[i] == Add(Add(a4, x2), b)[i];
    }
  }

  lemma ProductSquare(a: Elt, b: Elt)
    ensures Sq(Mul(a, b)) == Mul(Sq(a), Sq(b))
  {
    hide Act;
    MulAssoc(Mul(a, b), a, b);
    MulComm(Mul(a, b), a);
    MulAssoc(a, a, b);
    MulAssoc(Mul(a, a), b, b);
  }

  // ---------- Adding points with different x

  /** x^3 + a*x^2 + c*x + d */
  function Cubic(x: Elt, a: Elt, c: Elt, d: Elt): Elt {
    Add(Add(Mul(x, Sq(x)), Mul(a, Sq(x))), Add(Mul(c, x), d))
  }

  /** On the line y = s*x + c the curve equation is the cubic. */
  lemma LineMeetsCurve(x: Elt, y: Elt, s: Elt, c: Elt, b: Elt)
    requires y == Add(Mul(s, x), c)
    ensures Defect(Point(x, y), b) == Cubic(x, Add(Add(Sq(s), s), One()), c, Add(b, Sq(c)))
    ensures OnCurve(Point(x, y), b) <==> Defect(Point(x, y), b) == Zero()
  {
    hide Act;
    var x2 := Sq(x);
    var sx := Mul(s, x);
    SqAdd(sx, c);
    ProductSquare(s, x);
    MulDistr(x, sx, c);
    assert Mul(x, sx) == Mul(s, x2) by {
      MulComm(x, sx);
      MulAssoc(s, x, x);
    }
    MulComm(x, c);
    MulDistr(x2, Add(Sq(s), s), One());
    MulDistr(x2, Sq(s), s);
    MulUnit(x2);
    var x3, a1, a2, a3, a4 := Mul(x, x2), Mul(Sq(s), x2), Mul(s, x2), Mul(c, x), Sq(c);
    var lhs, rhs := Add(Add(a1, a4), Add(a2, a3)), Add(Add(x3, x2), b);
    assert Add(Sq(y), Mul(x, y)) == lhs;
    assert Mul(Add(Add(Sq(s), s), One()), x2) == Add(Add(a1, a2), x2);
    AddCancel(lhs, rhs);
    assert Add(lhs, rhs) == Add(Add(x3, Add(Add(a1, a2), x2)), Add(a3, Add(b, a4)));
  }

  /** Subtracting two roots and dividing by their difference. */
  lemma RootsGiveQuadratic(p: Elt, q: Elt, a: Elt, c: Elt, d: Elt, inv: Elt)
    requires Cubic(p, a, c, d) == Zero() && Cubic(q, a, c, d) == Zero()
    requires Mul(Add(p, q), inv) == One()
    ensures c == Add(Add(Add(Sq(p), Mul(p, q)), Sq(q)), Mul(a, Add(p, q)))
  {
    hide Act;
    var u := Add(p, q);
    var pq := Mul(p, q);
    var k := Add(Add(Add(Sq(p), pq), Sq(q)), Mul(a, u));
    var p3, q3 := Mul(p, Sq(p)), Mul(q, Sq(q));
    // u * (p^2 + pq + q^2) = p^3 + q^3
    var m := Add(Add(Sq(p), pq), Sq(q));
    MulDistr(m, p, q);
    MulDistr(p, Add(Sq(p), pq), Sq(q));
    MulDistr(p, Sq(p), pq);
    MulDistr(q, Add(Sq(p), pq), Sq(q));
    MulDistr(q, Sq(p), pq);
    assert Mul(q, Sq(p)) == Mul(p, pq) by {
      MulComm(q, Sq(p));
      MulAssoc(p, p, q);
    }
    assert Mul(q, pq) == Mul(p, Sq(q)) by {
      MulComm(q, pq);
      MulAssoc(p, q, q);
    }
    var w1, w2 := Mul(p, pq), Mul(p, Sq(q));
    assert Mul(u, m) == Add(Add(Add(p3, w1), w2), Add(Add(w1, w2), q3));
    assert Mul(u, m) == Add(p3, q3);
    // u * a * u = a*p^2 + a*q^2
    SqAdd(p, q);
    MulDistr(a, Sq(p), Sq(q));
    assert Mul(u, Mul(a, u)) == Mul(a, Sq(u)) by {
      MulComm(u, Mul(a, u));
      MulAssoc(a, u, u);
    }
    MulDistr(u, m, Mul(a, u));
    MulDistr(c, p, q);
    MulComm(u, c);
    var e1, e2 := Mul(a, Sq(p)), Mul(a, Sq(q));
    var f1, f2 := Mul(c, p), Mul(c, q);
    assert Mul(u, k) == Add(Add(p3, q3), Add(e1, e2));
    assert Mul(u, c) == Add(f1, f2);
    SumOfCubics(p3, q3, e1, e2, f1, f2, d);
    MulComm(u, inv);
    MulAssoc(inv, u, k);
    MulAssoc(inv, u, c);
    MulUnit(k);
    MulUnit(c);
  }

  lemma SumOfCubics(p3: Elt, q3: Elt, e1: Elt, e2: Elt, f1: Elt, f2: Elt, d: Elt)
    requires Add(Add(p3, e1), Add(f1, d)) == Zero() && Add(Add(q3, e2), Add(f2, d)) == Zero()
    ensures Add(Add(p3, q3), Add(e1, e2)) == Add(f1, f2)
  {
    forall i | 0 <= i < DEGREE
      ensures Add(Add(p3, q3), Add(e1, e2))[i] == Add(f1, f2)[i]
    {
      assert !Add(Add(p3, e1), Add(f1, d))[i] && !Add(Add(q3, e2), Add(f2, d))[i];
    }
  }

  /** The coefficients of a cubic with roots p and q, in terms of p, q and r = p + q + a. */
  lemma RootsGiveCoefficients(p: Elt, q: Elt, a: Elt, c: Elt, d: Elt)
    requires Cubic(p, a, c, d) == Zero()
    requires c == Add(Add(Add(Sq(p), Mul(p, q)), Sq(q)), Mul(a, Add(p, q)))
    ensures var r := Add(Add(p, q), a);
            c == Add(Mul(p, q), Mul(Add(p, q), r)) && d == Mul(Mul(p, q), r)
  {
    hide Act;
    var u := Add(p, q);
    var r := Add(u, a);
    var pq := Mul(p, q);
    assert c == Add(pq, Mul(u, r)) by {
      SqAdd(p, q);
      MulDistr(u, u, a);
      MulComm(u, a);
      assert Add(Add(Add(Sq(p), pq), Sq(q)), Mul(a, u)) == Add(pq, Add(Add(Sq(p), Sq(q)), Mul(a, u)));
    }
    var ur := Mul(u, r);
    // p^3 + a*p^2 + pq*p + u*r*p = pq*r
    assert Add(Mul(p, Sq(p)), Mul(a, Sq(p))) == Mul(Add(p, a), Sq(p)) by {
      MulDistr(Sq(p), p, a);
    }
    var g := Mul(Add(p, a), Sq(p));
    MulDistr(p, pq, ur);
    assert Add(g, Mul(pq, p)) == Mul(r, Sq(p)) by {
      MulComm(pq, p);
      MulAssoc(p, p, q);
      MulComm(Sq(p), q);
      MulDistr(Sq(p), Add(p, a), q);
      assert Add(Add(p, a), q) == r;
    }
    assert Mul(ur, p) == Add(Mul(r, Sq(p)), Mul(pq, r)) by {
      MulComm(u, r);
      MulAssoc(r, u, p);
      MulDistr(p, p, q);
      MulComm(q, p);
      MulDistr(r, Sq(p), pq);
      MulComm(r, pq);
    }
    var h := Mul(r, Sq(p));
    assert Cubic(p, a, c, d) == Add(Add(g, Mul(pq, p)), Add(Mul(ur, p), d));
    assert Cubic(p, a, c, d) == Add(h, Add(Add(h, Mul(pq, r)), d));
    assert Cubic(p, a, c, d) == Add(Mul(pq, r), d);
    AddCancel(d, Mul(pq, r));
    assert Add(d, Mul(pq, r)) == Add(Mul(pq, r), d);
  }

  /** (x + p)(x + q)(x + r), multiplied out. */
  lemma CubicFactors(x: Elt, p: Elt, q: Elt, r: Elt)
    ensures Cubic(x, Add(Add(p, q), r), Add(Mul(p, q), Mul(Add(p, q), r)), Mul(Mul(p, q), r)) ==
            Mul(Mul(Add(x, p), Add(x, q)), Add(x, r))
  {
    hide Act;
    var u, pq, x2 := Add(p, q), Mul(p, q), Sq(x);
    var ux := Mul(u, x);
    assert Mul(Add(x, p), Add(x, q)) == Add(Add(x2, ux), pq) by {
      MulDistr(Add(x, p), x, q);
      MulDistr(x, x, p);
      MulDistr(q, x, p);
      MulDistr(x, p, q);
      MulComm(x, q);
      assert Add(Add(x2, Mul(p, x)), Add(Mul(q, x), pq)) == Add(Add(x2, Add(Mul(p, x), Mul(q, x))), pq);
    }
    var m := Add(Add(x2, ux), pq);
    MulDistr(m, x, r);
    MulDistr(x, Add(x2, ux), pq);
    MulDistr(x, x2, ux);
    MulDistr(r, Add(x2, ux), pq);
    MulDistr(r, x2, ux);
    MulAssoc(u, x, x);
    MulComm(x2, x);
    MulComm(x2, r);
    assert Mul(ux, r) == Mul(Mul(u, r), x) by {
      MulAssoc(u, x, r);
      MulComm(x, r);
      MulAssoc(u, r, x);
    }
    MulDistr(x2, u, r);
    MulDistr(x, pq, Mul(u, r));
    var x3, a1, a2, c1, c2, d := Mul(x, x2), Mul(u, x2), Mul(r, x2), Mul(pq, x), Mul(Mul(u, r), x), Mul(pq, r);
    assert Mul(m, Add(x, r)) == Add(Add(Add(x3, a1), c1), Add(Add(a2, c2), d));
    assert Cubic(x, Add(u, r), Add(pq, Mul(u, r)), d) == Add(Add(x3, Add(a1, a2)), Add(Add(c1, c2), d));
    assert Add(Add(Add(x3, a1), c1), Add(Add(a2, c2), d)) == Add(Add(x3, Add(a1, a2)), Add(Add(c1, c2), d));
  }

  /** (x, y) and (x, y + x) lie on the curve together. */
  lemma NegationOnCurve(p: Point, b: Elt)
    requires OnCurve(p, b)
    ensures OnCurve(Point(p.x, Add(p.y, p.x)), b)
  {
    hide Act;
    var x, y := p.x, p.y;
    SqAdd(y, x);
    MulDistr(x, y, x);
    assert Add(Add(Sq(y), Sq(x)), Add(Mul(x, y), Sq(x))) == Add(Sq(y), Mul(x, y));
  }

  lemma NegNeg(p: Point)
    ensures Neg(Neg(p)) == p
  {
    AddCancel(p.y, p.x);
  }

  // ---------- Lines through points of the curve

  /** m lies on the line y = s*x + c. */
  ghost predicate On(m: Point, s: Elt, c: Elt) {
    m.y == Add(Mul(s, m.x), c)
  }

  /** Differences along a line. */
  lemma Rise(m: Point, p: Point, s: Elt, c: Elt)
    requires On(p, s, c)
    ensures On(m, s, c) <==> Add(m.y, p.y) == Mul(s, Add(m.x, p.x))
  {
    hide Act;
    MulDistr(s, m.x, p.x);
    var a, d := Mul(s, m.x), Mul(s, p.x);
    if Add(m.y, p.y) == Add(a, d) {
      forall i | 0 <= i < DEGREE
        ensures m.y[i] == Add(a, c)[i]
      {
        assert Add(m.y, p.y)[i] == Add(a, d)[i];
      }
    }
  }

  lemma Divide(u: Elt, v: Elt, s: Elt)
    requires InverseLaw() && u != Zero()
    ensures Mul(s, u) == v <==> s == Mul(Inv(u), v)
    ensures forall w :: Mul(w, u) == Mul(s, u) ==> w == s
  {
    hide Act, Inv;
    MulComm(u, Inv(u));
    forall w: Elt
      ensures Mul(Inv(u), Mul(w, u)) == w
    {
      MulComm(w, u);
      MulAssoc(Inv(u), u, w);
      MulUnit(w);
    }
    MulComm(Inv(u), v);
    MulAssoc(v, Inv(u), u);
    MulComm(Inv(u), u);
    MulUnit(v);
  }

  /** The line through two points with different x. */
  lemma LineThrough(p: Point, q: Point) returns (s: Elt, c: Elt)
    requires InverseLaw() && p.x != q.x
    ensures On(p, s, c) && On(q, s, c)
    ensures forall m :: OnLine(p, q, m) <==> On(m, s, c)
  {
    hide Act, Inv;
    var u, v := Add(p.x, q.x), Add(p.y, q.y);
    AddCancel(p.x, q.x);
    s := Mul(Inv(u), v);
    c := Add(p.y, Mul(s, p.x));
    AddCancel(p.y, Mul(s, p.x));
    assert Add(Mul(s, p.x), c) == p.y;
    Divide(u, v, s);
    Rise(q, p, s, c);
    assert Add(q.y, p.y) == v && Add(q.x, p.x) == u;
    forall m
      ensures OnLine(p, q, m) <==> On(m, s, c)
    {
      Rise(m, p, s, c);
      var w := Add(m.x, p.x);
      assert Mul(v, w) == Mul(Mul(s, w), u) by {
        MulAssoc(s, u, w);
        MulComm(u, w);
        MulAssoc(s, w, u);
      }
      Divide(u, v, Mul(s, w));
    }
  }

  /** Addition by the line through the two points: its third point, negated. */
  lemma PlusByLine(p: Point, q: Point, s: Elt, c: Elt)
    requires InverseLaw() && p != INFINITY && q != INFINITY && p.x != q.x && On(p, s, c) && On(q, s, c)
    ensures var rx := Add(Add(Add(Sq(s), s), One()), Add(p.x, q.x));
            Plus(p, q) == Neg(Point(rx, Add(Mul(s, rx), c)))
  {
    hide Act, Inv, Sq;
    var u, v := Add(p.x, q.x), Add(p.y, q.y);
    AddCancel(p.x, q.x);
    Rise(p, q, s, c);
    Divide(u, v, s);
    var t := Add(Add(Add(Sq(s), s), q.x), One());
    var rx := Add(Add(Add(Sq(s), s), One()), u);
    assert rx == Add(t, p.x);
    MulDistr(s, t, p.x);
    var m, n := Mul(s, t), Mul(s, p.x);
    assert Add(Add(m, p.y), rx) == Add(Add(Add(m, n), c), rx);
  }

  /** Doubling by the tangent at the point: its third point, negated. */
  lemma DoubleByLine(p: Point, s: Elt)
    requires InverseLaw() && p.x != Zero() && On(p, s, Sq(p.x))
    ensures var rx := Add(Add(Sq(s), s), One());
            Double(p) == Neg(Point(rx, Add(Mul(s, rx), Sq(p.x))))
  {
    hide Act, Inv;
    var x, y := p.x, p.y;
    var k := Add(Mul(y, Inv(x)), x);
    assert Mul(k, x) == Add(y, Sq(x)) by {
      MulDistr(x, Mul(y, Inv(x)), x);
      MulAssoc(y, Inv(x), x);
      MulComm(Inv(x), x);
      MulUnit(y);
    }
    assert Mul(s, x) == Add(y, Sq(x)) by { AddCancel(Mul(s, x), Sq(x)); }
    Divide(x, Add(y, Sq(x)), s);
    var rx := Add(Add(Sq(s), s), One());
    assert Add(Add(Mul(s, rx), rx), Sq(x)) == Add(Add(Mul(s, rx), Sq(x)), rx);
  }

  /** What a line through two points of the curve, or tangent to it, has to do with its third point. */
  ghost predicate Meets(p: Point, q: Point, n: Point, s: Elt, c: Elt, b: Elt) {
    && On(p, s, c) && On(q, s, c) && On(n, s, c)
    && Add(Add(p.x, q.x), n.x) == Add(Add(Sq(s), s), One())
    && c == Add(Mul(p.x, q.x), Mul(Add(p.x, q.x), n.x))
    && Add(b, Sq(c)) == Mul(Mul(p.x, q.x), n.x)
  }

  /** Along the line the equation is the product of the distances to the three points. */
  lemma MeetsAt(p: Point, q: Point, n: Point, s: Elt, c: Elt, b: Elt, m: Point)
    requires Meets(p, q, n, s, c, b) && On(m, s, c)
    ensures Defect(m, b) == Mul(Mul(Add(m.x, p.x), Add(m.x, q.x)), Add(m.x, n.x))
    ensures OnCurve(m, b) <==> Defect(m, b) == Zero()
  {
    hide Act, Sq;
    LineMeetsCurve(m.x, m.y, s, c, b);
    CubicFactors(m.x, p.x, q.x, n.x);
  }

  lemma ThirdOnCurve(p: Point, q: Point, n: Point, s: Elt, c: Elt, b: Elt)
    requires Meets(p, q, n, s, c, b)
    ensures OnCurve(n, b) && OnCurve(Neg(n), b)
  {
    hide Act;
    MeetsAt(p, q, n, s, c, b, n);
    AddCancel(n.x, n.x);
    MulUnit(Mul(Add(n.x, p.x), Add(n.x, q.x)));
    NegationOnCurve(n, b);
  }

  lemma ChordMeets(p: Point, q: Point, b: Elt) returns (s: Elt, c: Elt)
    requires InverseLaw() && OnCurve(p, b) && OnCurve(q, b)
    requires p.x != q.x && p != INFINITY && q != INFINITY
    ensures Meets(p, q, Neg(Plus(p, q)), s, c, b)
    ensures forall m :: OnLine(p, q, m) <==> On(m, s, c)
  {
    hide Act, Inv, Plus, OnLine, Sq;
    s, c := LineThrough(p, q);
    PlusByLine(p, q, s, c);
    var a := Add(Add(Sq(s), s), One());
    var u := Add(p.x, q.x);
    var n := Point(Add(a, u), Add(Mul(s, Add(a, u)), c));
    NegNeg(n);
    LineMeetsCurve(p.x, p.y, s, c, b);
    LineMeetsCurve(q.x, q.y, s, c, b);
    AddCancel(p.x, q.x);
    RootsGiveQuadratic(p.x, q.x, a, c, Add(b, Sq(c)), Inv(u));
    RootsGiveCoefficients(p.x, q.x, a, c, Add(b, Sq(c)));
    assert Add(u, a) == n.x && Add(u, n.x) == a;
  }

  lemma TangentMeets(p: Point, b: Elt) returns (s: Elt, c: Elt)
    requires InverseLaw() && OnCurve(p, b) && p.x != Zero()
    ensures c == Sq(p.x) && Meets(p, p, Neg(Double(p)), s, c, b)
    ensures forall m :: OnTangent(p, m) <==> On(m, s, c)
  {
    hide Act, Inv, Double;
    var x, y := p.x, p.y;
    c := Sq(x);
    s := Mul(Inv(x), Add(y, c));
    Divide(x, Add(y, c), s);
    AddCancel(y, c);
    DoubleByLine(p, s);
    var n := Point(Add(Add(Sq(s), s), One()), Add(Mul(s, Add(Add(Sq(s), s), One())), c));
    NegNeg(n);
    TangentEquation(x, y, s, n.x, b);
    AddCancel(x, x);
    MulUnit(n.x);
    assert Add(Add(x, x), n.x) == n.x && Add(Mul(x, x), Mul(Add(x, x), n.x)) == c;
    AddCancel(Mul(c, n.x), Sq(c));
    forall m
      ensures OnTangent(p, m) <==> On(m, s, c)
    {
      Rise(m, p, s, c);
      var w := Add(m.x, x);
      assert Add(c, y) == Mul(s, x);
      assert Mul(Add(c, y), w) == Mul(Mul(s, w), x) by {
        MulAssoc(s, x, w);
        MulComm(x, w);
        MulAssoc(s, w, x);
      }
      Divide(x, Mul(Mul(s, w), x), Add(m.y, y));
      Divide(x, Mul(Mul(s, w), x), Mul(s, w));
    }
  }

  // ---------- The geometric meaning of the formulas

  /** Along the line through two points the curve equation vanishes at them and at the negated sum, and nowhere else. */
  lemma ChordThird(p: Point, q: Point, b: Elt)
    requires InverseLaw() && OnCurve(p, b) && OnCurve(q, b)
    requires p.x != q.x && p != INFINITY && q != INFINITY
    ensures OnLine(p, q, Neg(Plus(p, q)))
    ensures forall m :: OnLine(p, q, m) ==>
              Defect(m, b) == Mul(Mul(Add(m.x, p.x), Add(m.x, q.x)), Add(m.x, Neg(Plus(p, q)).x))
  {
    hide Act, Inv, Plus, OnLine, Defect;
    var s, c := ChordMeets(p, q, b);
    forall m | OnLine(p, q, m)
      ensures Defect(m, b) == Mul(Mul(Add(m.x, p.x), Add(m.x, q.x)), Add(m.x, Neg(Plus(p, q)).x))
    {
      MeetsAt(p, q, Neg(Plus(p, q)), s, c, b, m);
    }
  }

  /** Along the tangent it vanishes twice at the point, and at its negated double. */
  lemma TangentThird(p: Point, b: Elt)
    requires InverseLaw() && OnCurve(p, b) && p.x != Zero()
    ensures OnTangent(p, Neg(Double(p)))
    ensures forall m :: OnTangent(p, m) ==> Defect(m, b) == Mul(Sq(Add(m.x, p.x)), Add(m.x, Neg(Double(p)).x))
  {
    hide Act, Inv, Double, OnTangent, Defect;
    var s, c := TangentMeets(p, b);
    forall m | OnTangent(p, m)
      ensures Defect(m, b) == Mul(Sq(Add(m.x, p.x)), Add(m.x, Neg(Double(p)).x))
    {
      MeetsAt(p, p, Neg(Double(p)), s, c, b, m);
    }
  }

  lemma PlusComm(p: Point, q: Point)
    requires InverseLaw()
    ensures Plus(p, q) == Plus(q, p)
  {
    hide Act, Inv, OnLine, Double;
    if p != INFINITY && q != INFINITY && p.x != q.x {
      var s, c := LineThrough(p, q);
      PlusByLine(p, q, s, c);
      PlusByLine(q, p, s, c);
      assert Add(p.x, q.x) == Add(q.x, p.x);
    }
  }

  // ---------- Adding and taking away

  /** The negated line. */
  lemma NegOn(m: Point, s: Elt, c: Elt)
    requires On(m, s, c)
    ensures On(Neg(m), Add(s, One()), c)
    ensures Add(Sq(Add(s, One())), Add(s, One())) == Add(Sq(s), s)
  {
    hide Act;
    MulDistr(m.x, s, One());
    MulUnit(m.x);
    SqAdd(s, One());
    MulUnit(One());
    assert Add(Add(Sq(s), One()), Add(s, One())) == Add(Sq(s), s);
  }

  /** With p, q and the negated r on one line, r and the negated q add up to p. */
  lemma UndoOnLine(p: Point, q: Point, n: Point, s: Elt, c: Elt, b: Elt)
    requires InverseLaw() && Meets(p, q, n, s, c, b) && q != INFINITY && Neg(n) != INFINITY
    ensures Plus(Neg(n), Neg(q)) == p
  {
    hide Act, Inv, Sq, Plus, Double;
    var s' := Add(s, One());
    NegOn(n, s, c);
    NegOn(q, s, c);
    NegOn(p, s, c);
    NegNeg(p);
    AddCancel(q.y, q.x);
    assert Neg(q) != INFINITY by { NegIsZero(q); }
    if n.x != q.x {
      PlusByLine(Neg(n), Neg(q), s', c);
      assert Add(Add(Add(Sq(s'), s'), One()), Add(n.x, q.x)) == p.x by {
        assert Add(Add(Add(p.x, q.x), n.x), Add(n.x, q.x)) == p.x;
      }
    } else {
      UndoAtTangent(p, q, n, s, c, b);
    }
  }

  lemma NegIsZero(q: Point)
    ensures Neg(q) == INFINITY <==> q == INFINITY
  {
    AddCancel(q.y, q.x);
    AddLaws(q.y, q.x, Zero());
  }

  lemma ZeroTangent(q: Point, s: Elt, c: Elt)
    requires On(q, s, c) && c == Sq(q.x)
    ensures q.x == Zero() ==> q == INFINITY
  {
    if q.x == Zero() {
      MulUnit(s);
      MulUnit(Zero());
      AddLaws(Zero(), Zero(), Zero());
    }
  }

  /** The case of a line that is tangent at q. */
  lemma UndoAtTangent(p: Point, q: Point, n: Point, s: Elt, c: Elt, b: Elt)
    requires InverseLaw() && Meets(p, q, n, s, c, b) && q != INFINITY && n.x == q.x
    ensures Plus(Neg(n), Neg(q)) == p
  {
    hide Act, Inv, Double;
    var s' := Add(s, One());
    NegOn(q, s, c);
    NegOn(p, s, c);
    NegNeg(p);
    NegIsZero(q);
    assert n == q;
    assert c == Sq(q.x) by {
      MulDistr(q.x, p.x, q.x);
      AddCancel(Sq(q.x), Mul(p.x, q.x));
      assert Add(Mul(p.x, q.x), Add(Mul(p.x, q.x), Sq(q.x))) == Sq(q.x);
    }
    ZeroTangent(q, s, c);
    DoubleByLine(Neg(q), s');
    assert Add(Add(Sq(s'), s'), One()) == p.x by {
      AddCancel(p.x, q.x);
    }
  }

  /** Subtraction undoes addition, for all points of the curve, at infinity or not. */
  lemma PlusUndone(p: Point, q: Point, b: Elt)
    requires InverseLaw() && b != Zero() && CurveOrInfinity(p, b) && CurveOrInfinity(q, b)
    ensures Plus(Plus(p, q), Neg(q)) == p
  {
    hide Act, Inv, Sq;
    NegIsZero(q);
    InfinityOffCurve(b);
    AddLaws(q.y, q.x, Zero());
    if q == INFINITY {
    } else if p == INFINITY {
      MinusItself(q);
    } else if p.x != q.x {
      var s, c := ChordMeets(p, q, b);
      NegNeg(Plus(p, q));
      ThirdOnCurve(p, q, Neg(Plus(p, q)), s, c, b);
      UndoOnLine(p, q, Neg(Plus(p, q)), s, c, b);
    } else if p.y != q.y {
      SameX(p, q, b);
    } else if p.x != Zero() {
      var s, c := TangentMeets(p, b);
      NegNeg(Double(p));
      ThirdOnCurve(p, p, Neg(Double(p)), s, c, b);
      UndoOnLine(p, p, Neg(Double(p)), s, c, b);
    }
  }

  lemma InfinityOffCurve(b: Elt)
    requires b != Zero()
    ensures !OnCurve(INFINITY, b)
  {
    MulUnit(Zero());
    AddLaws(Zero(), Zero(), b);
    AddLaws(b, Zero(), Zero());
  }

  lemma MinusItself(q: Point)
    ensures Plus(q, Neg(q)) == INFINITY
  {
    NegIsZero(q);
    if q.y == Neg(q).y {
      AddCancel(q.y, q.x);
      assert forall i :: 0 <= i < DEGREE ==> q.y[i] == (q.y[i] != q.x[i]);
      assert q.x == Zero();
    }
  }

  /** Two points of the curve with the same x are the same or negatives of each other. */
  lemma SameX(p: Point, q: Point, b: Elt)
    requires InverseLaw() && OnCurve(p, b) && OnCurve(q, b) && p.x == q.x && p.y != q.y
    ensures p == Neg(q)
  {
    hide Act, Inv;
    var v := Add(p.y, q.y);
    AddCancel(p.y, q.y);
    SqAdd(p.y, q.y);
    MulDistr(p.x, p.y, q.y);
    assert Sq(v) == Mul(p.x, v) by {
      var k := Add(Add(Mul(p.x, Sq(p.x)), Sq(p.x)), b);
      SameSides(Sq(p.y), Mul(p.x, p.y), Sq(q.y), Mul(q.x, q.y), k);
    }
    Divide(v, Sq(v), v);
    assert v == p.x;
    AddCancel(p.y, q.y);
    AddCancel(q.y, p.x);
    assert Add(q.y, v) == p.y;
  }

  lemma SameSides(a1: Elt, a2: Elt, c1: Elt, c2: Elt, k: Elt)
    requires Add(a1, a2) == k && Add(c1, c2) == k
    ensures Add(a1, c1) == Add(a2, c2)
  {
    forall i | 0 <= i < DEGREE
      ensures Add(a1, c1)[i] == Add(a2, c2)[i]
    {
      assert Add(a1, a2)[i] == Add(c1, c2)[i];
    }
  }

  // ---------- Results stay on the curve

  lemma DoubleOnCurve(p: Point, b: Elt)
    requires InverseLaw() && CurveOrInfinity(p, b)
    ensures CurveOrInfinity(Double(p), b)
  {
    hide Act, Inv;
    if p.x != Zero() {
      var s, c := TangentMeets(p, b);
      NegNeg(Double(p));
      ThirdOnCurve(p, p, Neg(Double(p)), s, c, b);
    }
  }

  lemma PlusOnCurve(p: Point, q: Point, b: Elt)
    requires InverseLaw() && CurveOrInfinity(p, b) && CurveOrInfinity(q, b)
    ensures CurveOrInfinity(Plus(p, q), b)
  {
    if p != INFINITY && q != INFINITY {
      if p.x != q.x {
        var s, c := ChordMeets(p, q, b);
        NegNeg(Plus(p, q));
        ThirdOnCurve(p, q, Neg(Plus(p, q)), s, c, b);
      } else if p.y == q.y {
        DoubleOnCurve(p, b);
      }
    }
  }

  /** Every scalar multiple of a curve point is a curve point or the marker. */
  lemma {:induction false} TimesOnCurve(bits: seq<bool>, p: Point, b: Elt)
    requires InverseLaw() && CurveOrInfinity(p, b)
    ensures CurveOrInfinity(Times(bits, p), b)
  {
    if bits != [] {
      var most := bits[..|bits| - 1];
      TimesOnCurve(most, p, b);
      DoubleOnCurve(Times(most, p), b);
      PlusOnCurve(Double(Times(most, p)), p, b);
    }
  }

  // ---------- The byte-level operations

  predicate ReducedPoint(p: seq<Byte>) {
    |p| == 60 && Reduced(p[..30]) && Reduced(p[30..])
  }

  function PointOf(p: seq<Byte>): Point
    requires |p| == 60
  {
    Point(Low(p[..30]), Low(p[30..]))
  }

  lemma PointOfParts(rx: seq<Byte>, ry: seq<Byte>)
    requires Reduced(rx) && Reduced(ry)
    ensures ReducedPoint(rx + ry) && PointOf(rx + ry) == Point(Low(rx), Low(ry))
  {
    assert (rx + ry)[..30] == rx && (rx + ry)[30..] == ry;
  }

  lemma ZeroPoint()
    ensures ReducedPoint(ZeroBytes(60)) && PointOf(ZeroBytes(60)) == INFINITY
  {
    ZeroIsZero();
    PointOfParts(ZeroBytes(30), ZeroBytes(30));
    assert ZeroBytes(60) == ZeroBytes(30) + ZeroBytes(30);
  }

  /** x[29] ^= 1 */
  method AddOne(x: seq<Byte>) returns (r: seq<Byte>)
    requires |x| == 30
    ensures |r| == 30 && Low(r) == Add(Low(x), One()) && (Reduced(x) ==> Reduced(r))
  {
    r := x[29 := Xor(x[29], Lit(1))];
    LowOfAddOne(x, r);
  }

  lemma LowOfAddOne(x: seq<Byte>, r: seq<Byte>)
    requires |x| == 30 && r == x[29 := Xor(x[29], Lit(1))]
    ensures Low(r) == Add(Low(x), One())
  {
    LitBits();
    BitsAt(x, DEGREE);
    BitsAt(r, DEGREE);
    forall e | 0 <= e < DEGREE
      ensures Low(r)[e] == Add(Low(x), One())[e]
    {
      if e < 8 {
        assert e / 8 == 0 && e % 8 == e;
      } else {
        assert e / 8 >= 1;
      }
    }
  }

  method PointIsZero(p: seq<Byte>) returns (z: bool)
    requires |p| == 60
    ensures z <==> p == ZeroBytes(60)
    ensures ReducedPoint(p) ==> (z <==> PointOf(p) == INFINITY)
  {
    ZeroPoint();
    if ReducedPoint(p) && PointOf(p) == INFINITY {
      LowInjective(p[..30], ZeroBytes(60)[..30]);
      LowInjective(p[30..], ZeroBytes(60)[30..]);
      assert p == p[..30] + p[30..];
      assert p == ZeroBytes(60);
    }
    for i := 0 to 60
      invariant forall j :: 0 <= j < i ==> p[j] == Lit(0)
    {
      if p[i] != Lit(0) {
        assert p != ZeroBytes(60);
        return false;
      }
    }
    assert p == ZeroBytes(60);
    return true;
  }

  /** The point is read as field elements; on unreduced bytes the two readings of eltMul and eltSquare differ. */
  method PointDouble(p: seq<Byte>) returns (r: seq<Byte>)
    requires |p| == 60
    ensures |r| == 60 && (ReducedPoint(p) ==> ReducedPoint(r) && PointOf(r) == Double(PointOf(p)))
  {
    hide Act, Inv;
    var px, py := p[..30], p[30..];
    var zero := EltIsZero(px);
    if zero {
      ZeroPoint();
      return ZeroBytes(60);
    }
    var t := EltInv(px);
    var s := EltMul(py, t);
    s := EltAdd(s, px);
    t := EltSquare(px);
    var rx := EltSquare(s);
    rx := EltAdd(rx, s);
    rx := AddOne(rx);
    var ry := EltMul(s, rx);
    ry := EltAdd(ry, rx);
    ry := EltAdd(ry, t);
    r := rx + ry;
    if ReducedPoint(p) {
      PointOfParts(rx, ry);
    }
  }

  method PointAdd(p: seq<Byte>, q: seq<Byte>) returns (r: seq<Byte>)
    requires |p| == |q| == 60
    ensures |r| == 60 && (ReducedPoint(p) && ReducedPoint(q) ==> ReducedPoint(r) && PointOf(r) == Plus(PointOf(p), PointOf(q)))
  {
    hide Act, Inv, Double;
    var pZero := PointIsZero(p);
    if pZero {
      return q;
    }
    var qZero := PointIsZero(q);
    if qZero {
      return p;
    }
    var px, py, qx, qy := p[..30], p[30..], q[..30], q[30..];
    var u := EltAdd(px, qx);
    AddCancel(Low(px), Low(qx));
    AddCancel(Low(py), Low(qy));
    var sameX := EltIsZero(u);
    if sameX {
      u := EltAdd(py, qy);
      var sameY := EltIsZero(u);
      if sameY {
        r := PointDouble(p);
        return;
      }
      ZeroPoint();
      return ZeroBytes(60);
    }
    r := Chord(px, py, qx, qy, u);
  }

  /** The last part of pointAdd, for points with different x. */
  method Chord(px: seq<Byte>, py: seq<Byte>, qx: seq<Byte>, qy: seq<Byte>, ux: seq<Byte>) returns (r: seq<Byte>)
    requires |px| == |py| == |qx| == |qy| == |ux| == 30
    requires Low(ux) == Add(Low(px), Low(qx))
    ensures |r| == 60
    ensures Reduced(px) && Reduced(py) && Reduced(qx) && Reduced(qy) && Reduced(ux) && Low(px) != Low(qx)
            && Point(Low(px), Low(py)) != INFINITY && Point(Low(qx), Low(qy)) != INFINITY ==>
              ReducedPoint(r) && PointOf(r) == Plus(Point(Low(px), Low(py)), Point(Low(qx), Low(qy)))
  {
    hide Act, Inv;
    var t := EltInv(ux);
    var u := EltAdd(py, qy);
    var s := EltMul(t, u);
    t := EltSquare(s);
    t := EltAdd(t, s);
    t := EltAdd(t, qx);
    t := AddOne(t);
    u := EltMul(s, t);
    s := EltAdd(u, py);
    var rx := EltAdd(t, px);
    var ry := EltAdd(s, rx);
    r := rx + ry;
    if Reduced(px) && Reduced(py) && Reduced(qx) && Reduced(qy) && Reduced(ux) {
      PointOfParts(rx, ry);
    }
  }

  /** The first n bits of a big-endian scalar, highest first. */
  function ScalarBits(a: seq<Byte>, n: nat): seq<bool>
    requires n <= 8 * |a|
  {
    if n == 0 then [] else ScalarBits(a, n - 1) + [a[(n - 1) / 8][7 - (n - 1) % 8]]
  }

  lemma TimesSnoc(bits: seq<bool>, bit: bool, p: Point)
    ensures Times(bits + [bit], p) == DoubleAndAdd(Times(bits, p), p, bit)
  {
    assert (bits + [bit])[..|bits|] == bits;
  }

  /** The multiple of a point, by halving the number. */
  function MultipleBy(n: nat, p: Point): Point {
    if n == 0 then INFINITY
    else
      var twice := Double(MultipleBy(n / 2, p));
      if n % 2 == 1 then Plus(twice, p) else twice
  }

  /** The number a big-endian byte string stands for. */
  function NumberOf(a: seq<Byte>): nat {
    if a == [] then 0 else 256 * NumberOf(a[..|a| - 1]) + Value(a[|a| - 1])
  }

  /** The number the first n bits stand for. */
  function BitsNumber(bits: seq<bool>): nat {
    if bits == [] then 0 else 2 * BitsNumber(bits[..|bits| - 1]) + (if bits[|bits| - 1] then 1 else 0)
  }

  lemma {:induction false} TimesIsMultiple(bits: seq<bool>, p: Point)
    ensures Times(bits, p) == MultipleBy(BitsNumber(bits), p)
  {
    hide Double, Plus;
    if bits != [] {
      TimesIsMultiple(bits[..|bits| - 1], p);
      DoubleOfInfinity();
    }
  }

  lemma DoubleOfInfinity()
    ensures Double(INFINITY) == INFINITY && forall p :: Plus(INFINITY, p) == p
  {
  }

  lemma BitsNumberMore(bits: seq<bool>, bit: bool)
    ensures BitsNumber(bits + [bit]) == 2 * BitsNumber(bits) + (if bit then 1 else 0)
  {
    assert (bits + [bit])[..|bits|] == bits;
  }

  /** The scalar is read with its highest bit first. */
  lemma {:induction false} ScalarIsNumber(a: seq<Byte>, n: nat)
    requires n <= |a|
    ensures BitsNumber(ScalarBits(a, 8 * n)) == NumberOf(a[..n])
  {
    hide BitsNumber, ScalarBits, Value, NumberOf;
    if n == 0 {
      NoNumber(a);
    } else {
      ScalarIsNumber(a, n - 1);
      ByteNumber(a, n - 1);
      NumberMore(a, n - 1);
    }
  }

  lemma NoNumber(a: seq<Byte>)
    ensures BitsNumber(ScalarBits(a, 0)) == NumberOf(a[..0]) == 0
  {
  }

  lemma NumberMore(a: seq<Byte>, i: nat)
    requires i < |a|
    ensures NumberOf(a[..i + 1]) == 256 * NumberOf(a[..i]) + Value(a[i])
  {
    assert a[..i + 1][..i] == a[..i];
  }

  lemma ByteNumber(a: seq<Byte>, i: nat)
    requires i < |a|
    ensures BitsNumber(ScalarBits(a, 8 * i + 8)) == 256 * BitsNumber(ScalarBits(a, 8 * i)) + Value(a[i])
  {
    hide BitsNumber, ScalarBits, Value;
    var x, m := a[i], BitsNumber(ScalarBits(a, 8 * i));
    NextNumber(a, i, 0);
    NextNumber(a, i, 1);
    NextNumber(a, i, 2);
    NextNumber(a, i, 3);
    NextNumber(a, i, 4);
    NextNumber(a, i, 5);
    NextNumber(a, i, 6);
    NextNumber(a, i, 7);
    ValueByBits(x);
  }

  lemma NextNumber(a: seq<Byte>, i: nat, k: nat)
    requires i < |a| && k < 8
    ensures BitsNumber(ScalarBits(a, 8 * i + (k + 1))) == 2 * BitsNumber(ScalarBits(a, 8 * i + k)) + Bit(a[i][7 - k])
  {
    NextBit(a, i, k);
    BitsNumberMore(ScalarBits(a, 8 * i + k), a[i][7 - k]);
  }

  function Bit(b: bool): nat {
    if b then 1 else 0
  }

  lemma ValueByBits(x: Byte)
    ensures Value(x) == Bit(x[0]) + 2 * Bit(x[1]) + 4 * Bit(x[2]) + 8 * Bit(x[3]) + 16 * Bit(x[4]) + 32 * Bit(x[5]) + 64 * Bit(x[6]) + 128 * Bit(x[7])
  {
  }

  /** d is the multiple of b by the first n bits of a, if b is reduced. */
  ghost predicate Multiple(d: seq<Byte>, a: seq<Byte>, n: nat, b: seq<Byte>) {
    && n <= 8 * |a| && |b| == |d| == 60
    && (ReducedPoint(b) ==> ReducedPoint(d) && PointOf(d) == Times(ScalarBits(a, n), PointOf(b)))
  }

  lemma NextBit(a: seq<Byte>, i: nat, k: nat)
    requires i < |a| && k < 8
    ensures ScalarBits(a, 8 * i + (k + 1)) == ScalarBits(a, 8 * i + k) + [a[i][7 - k]]
  {
    var n := 8 * i + k;
    assert n / 8 == i && n % 8 == k;
  }

  lemma MultipleNext(d: seq<Byte>, d': seq<Byte>, a: seq<Byte>, i: nat, k: nat, b: seq<Byte>)
    requires i < |a| && k < 8 && Multiple(d, a, 8 * i + k, b) && |d'| == 60
    requires ReducedPoint(b) ==> ReducedPoint(d') && PointOf(d') == DoubleAndAdd(PointOf(d), PointOf(b), a[i][7 - k])
    ensures Multiple(d', a, 8 * i + (k + 1), b)
  {
    hide DoubleAndAdd, PointOf, ReducedPoint, ScalarBits, Times;
    NextBit(a, i, k);
    TimesSnoc(ScalarBits(a, 8 * i + k), a[i][7 - k], PointOf(b));
  }

  /** One bit of the scalar. */
  method MulRound(ghost a: seq<Byte>, ghost i: nat, ghost k: nat, d0: seq<Byte>, b: seq<Byte>, add: bool) returns (d: seq<Byte>)
    requires i < |a| && k < 8 && add == a[i][7 - k] && Multiple(d0, a, 8 * i + k, b)
    ensures Multiple(d, a, 8 * i + (k + 1), b)
  {
    hide Double, Plus, PointOf, ReducedPoint, ScalarBits, Times;
    d := PointDouble(d0);
    if add {
      d := PointAdd(d, b);
    }
    MultipleNext(d0, d, a, i, k, b);
  }

  /** The inner loop of pointMul: the eight bits of byte i of the scalar. */
  method MulByte(a: seq<Byte>, b: seq<Byte>, i: nat, d0: seq<Byte>) returns (d: seq<Byte>)
    requires i < |a| && Multiple(d0, a, 8 * i, b)
    ensures Multiple(d, a, 8 * i + 8, b)
  {
    hide Multiple;
    d := d0;
    var mask := Lit(0x80);
    ghost var k := 0;
    MaskTests(mask, 0);
    while mask != Lit(0)
      invariant k <= 8 && mask == HighMask(k)
      invariant Multiple(d, a, 8 * i + k, b)
      decreases 8 - k
    {
      HighMaskTests(a[i], k);
      d := MulRound(a, i, k, d, b, And(a[i], mask) != Lit(0));
      mask := Shr(mask, 1);
      k := k + 1;
    }
    HighMaskTests(a[i], k);
  }

  function HighMask(k: nat): Byte
    requires k <= 8
  {
    if k < 8 then MaskOf(7 - k) else Lit(0)
  }

  lemma HighMaskTests(x: Byte, k: nat)
    requires k <= 8
    ensures HighMask(k) == Lit(0) <==> k == 8
    ensures k < 8 ==> (And(x, HighMask(k)) != Lit(0) <==> x[7 - k]) && Shr(HighMask(k), 1) == HighMask(k + 1)
  {
    if k < 8 {
      MaskTests(x, 7 - k);
      LitBits();
      assert MaskOf(7 - k)[7 - k];
    }
  }

  /** Left-to-right double and add; the contract's last clause is the property the signature check relies on. */
  method PointMul(a: seq<Byte>, b: seq<Byte>) returns (d: seq<Byte>)
    requires |a| == 30 && |b| == 60
    ensures |d| == 60 && (ReducedPoint(b) ==> ReducedPoint(d) && PointOf(d) == MultipleBy(NumberOf(a), PointOf(b)))
    ensures InverseLaw() && ReducedPoint(b) ==> forall c: Elt :: CurveOrInfinity(PointOf(b), c) ==> CurveOrInfinity(PointOf(d), c)
  {
    hide DoubleAndAdd, InverseLaw, ReducedPoint, PointOf, ScalarBits, Multiple, CurveOrInfinity;
    d := ZeroBytes(60);
    ZeroMultiple(a, b);
    for i := 0 to 30
      invariant Multiple(d, a, 8 * i, b)
    {
      d := MulByte(a, b, i, d);
    }
    WholeMultiple(d, a, b);
    TimesIsMultiple(ScalarBits(a, 240), PointOf(b));
    ScalarIsNumber(a, 30);
    assert a[..30] == a;
    MultiplesOnCurve(ScalarBits(a, 240), PointOf(b));
  }

  lemma ZeroMultiple(a: seq<Byte>, b: seq<Byte>)
    requires |b| == 60
    ensures Multiple(ZeroBytes(60), a, 0, b)
  {
    ZeroPoint();
  }

  lemma WholeMultiple(d: seq<Byte>, a: seq<Byte>, b: seq<Byte>)
    requires Multiple(d, a, 240, b)
    ensures |b| == |d| == 60 && 240 <= 8 * |a|
    ensures ReducedPoint(b) ==> ReducedPoint(d) && PointOf(d) == Times(ScalarBits(a, 240), PointOf(b))
  {
  }

  lemma MultiplesOnCurve(bits: seq<bool>, p: Point)
    ensures InverseLaw() ==> forall c: Elt :: CurveOrInfinity(p, c) ==> CurveOrInfinity(Times(bits, p), c)
  {
    forall c: Elt | InverseLaw() && CurveOrInfinity(p, c)
      ensures CurveOrInfinity(Times(bits, p), c)
    {
      TimesOnCurve(bits, p, c);
    }
  }
}
